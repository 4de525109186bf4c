// The filter context: a coroutine for each direction of the stream, either of which
// is missing if its Lua thread could not be created.
module LuaPlugin {
  import opened LuaCoroutine
  import opened LuaDriver
  import opened LuaRuns
  import opened LuaScript
  import opened LuaStream
  import opened Wrappers

  const NO_COROUTINE := Error(NoCoroutine)

  // The two directions share no state.
  ghost predicate Apart(co: LuaStreamCoroutine?, other: LuaStreamCoroutine?) {
    co != null && other != null ==> co != other && co.thread != other.thread
  }

  class LuaHttpContext {
    const request: LuaStreamCoroutine?
    const response: LuaStreamCoroutine?

    constructor (request: LuaStreamCoroutine?, response: LuaStreamCoroutine?)
      requires Apart(request, response)
      requires (request != null ==> request.mode == Request) && (response != null ==> response.mode == Response)
      ensures this.request == request && this.response == response && Valid()
    {
      this.request, this.response := request, response;
    }

    ghost predicate Valid() {
      && Apart(request, response)
      && (request != null ==> request.mode == Request)
      && (response != null ==> response.mode == Response)
    }

    function Coroutine(m: Mode): (co: LuaStreamCoroutine?)
      requires Valid()
      ensures co != null ==> co.mode == m
    {
      if m.Request? then request else response
    }

    ghost function Footprint(m: Mode): set<object>
      requires Valid()
    {
      if Coroutine(m) == null then {} else {Coroutine(m), Coroutine(m).thread}
    }

    function Opposite(m: Mode): Mode {
      if m.Request? then Response else Request
    }

    method OnHeaders(m: Mode, end: bool) returns (reply: Reply)
      requires Valid()
      requires Coroutine(m) != null ==> Inv(Coroutine(m).View())
      modifies Footprint(m)
      ensures Coroutine(m) == null ==> reply == Reply(StopIteration, Some(500), NO_COROUTINE)
      ensures Coroutine(m) != null ==>
                (Coroutine(m).View(), reply) == LuaRuns.OnHeaders(old(Coroutine(m).View()), end)
      ensures Coroutine(Opposite(m)) != null ==>
                Coroutine(Opposite(m)).View() == old(Coroutine(Opposite(m)).View())
    {
      hide LuaDriver.Start, LuaDriver.HandleHeaders;
      var co := Coroutine(m);
      if co == null {
        return Reply(StopIteration, Some(500), NO_COROUTINE);
      }
      StartKeepsInv(co.View());
      var started := co.Start();
      if started.Error? {
        return Reply(StopIteration, None, started);
      }
      var out := co.HandleHeaders(end);
      if out.Error? {
        return Reply(StopIteration, Some(HttpStatus(out.failure)), out);
      }
      if co.reason == WaitForHttp || co.reason == WaitForBody || co.reason == Responded {
        return Reply(StopIteration, None, out);
      }
      co.passedOn := true;
      reply := Reply(Continue, None, out);
    }

    method OnBody(m: Mode, length: nat, end: bool) returns (reply: Reply)
      requires Valid()
      requires Coroutine(m) != null ==> Inv(Coroutine(m).View())
      modifies Footprint(m)
      ensures Coroutine(m) == null ==> reply == Reply(StopIterationNoBuffer, Some(500), NO_COROUTINE)
      ensures Coroutine(m) != null ==>
                (Coroutine(m).View(), reply) == LuaRuns.OnBody(old(Coroutine(m).View()), length, end)
      ensures Coroutine(Opposite(m)) != null ==>
                Coroutine(Opposite(m)).View() == old(Coroutine(Opposite(m)).View())
    {
      hide LuaDriver.HandleBody;
      var co := Coroutine(m);
      if co == null {
        return Reply(StopIterationNoBuffer, Some(500), NO_COROUTINE);
      }
      var out := co.HandleBody(length, end);
      if out.Error? {
        return Reply(StopIterationNoBuffer, Some(HttpStatus(out.failure)), out);
      }
      match co.reason {
        case WaitForHttp => return Reply(StopIterationAndWatermark, None, out);
        case WaitForBody => return Reply(StopIterationAndBuffer, None, out);
        case Responded => return Reply(StopIterationNoBuffer, None, out);
        case _ =>
      }
      co.passedOn := true;
      reply := Reply(Continue, None, out);
    }

    method OnTrailers(m: Mode) returns (reply: Reply)
      requires Valid()
      requires Coroutine(m) != null ==> Inv(Coroutine(m).View())
      modifies Footprint(m)
      ensures Coroutine(m) == null ==> reply == Reply(StopIteration, Some(500), NO_COROUTINE)
      ensures Coroutine(m) != null ==>
                (Coroutine(m).View(), reply) == LuaRuns.OnTrailers(old(Coroutine(m).View()))
      ensures Coroutine(Opposite(m)) != null ==>
                Coroutine(Opposite(m)).View() == old(Coroutine(Opposite(m)).View())
    {
      hide LuaDriver.HandleTrailers;
      var co := Coroutine(m);
      if co == null {
        return Reply(StopIteration, Some(500), NO_COROUTINE);
      }
      var out := co.HandleTrailers();
      if out.Error? {
        return Reply(StopIteration, Some(HttpStatus(out.failure)), out);
      }
      if co.reason == WaitForHttp || co.reason == Responded {
        return Reply(StopIteration, None, out);
      }
      co.passedOn := true;
      reply := Reply(Continue, None, out);
    }
  }
}
