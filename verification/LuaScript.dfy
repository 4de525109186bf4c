// A Lua entry point, seen from the host: what it asks of the stream handle, as a
// function of the answers it has received so far.
module LuaScript {

  type byte = x: int | 0 <= x < 256

  datatype Mode = Request | Response

  // The four yielding accessors of the stream handle. BodyChunks is one step of the
  // iterator that bodyChunks() returns.
  datatype Accessor = Headers | Body | Trailers | BodyChunks

  // What an accessor hands to the script. A Buffer is a handle on the proxy's body
  // buffer: bytes is what the script reads from it on receipt. guarded says whether
  // the map refuses changes once the headers have been passed on.
  datatype Value =
    | HeaderMap(mode: Mode, guarded: bool)
    | TrailerMap(mode: Mode, guarded: bool)
    | Buffer(mode: Mode, bytes: seq<byte>)
    | Nil

  datatype Action = Call(accessor: Accessor) | Return | Raise

  // defined: the global function exists. next: the next action after a history of
  // answers. rank: a bound on the remaining work, used only to prove termination; an
  // ordinal, as the work may be bounded by nothing but an answer yet to come.
  datatype Script = Script(defined: bool, next: seq<Value> -> Action, rank: seq<Value> -> ORDINAL)

  // v has the kind and the direction that accessor a promises on a stream of mode m.
  predicate Answers(a: Accessor, m: Mode, v: Value) {
    match a
    case Headers => v.HeaderMap? && v.mode == m
    case Body => v.Buffer? && v.mode == m
    case Trailers => v.TrailerMap? && v.mode == m
    case BodyChunks => v.Nil? || (v.Buffer? && v.mode == m)
  }

  // One answer uses up rank, except that a chunk of the body may start any work anew.
  predicate UsesRank(s: Script, m: Mode, h: seq<Value>, v: Value) {
    s.next(h).Call? && Answers(s.next(h).accessor, m, v) && !(s.next(h).accessor.BodyChunks? && v.Buffer?) ==>
      s.rank(h + [v]) < s.rank(h)
  }

  // From any history on, the script does finitely much work unless it is handed
  // another chunk.
  ghost predicate Ranked(s: Script, m: Mode) {
    forall h: seq<Value>, v: Value :: UsesRank(s, m, h, v)
  }

  function Front(h: seq<Value>): seq<Value>
    requires h != []
  {
    h[..|h| - 1]
  }

  function Latest(h: seq<Value>): Value
    requires h != []
  {
    h[|h| - 1]
  }

  // Every answer in h has the kind and direction of the call it answers.
  predicate WellAnswered(s: Script, m: Mode, h: seq<Value>) {
    h != [] ==>
      && WellAnswered(s, m, Front(h))
      && s.next(Front(h)).Call?
      && Answers(s.next(Front(h)).accessor, m, Latest(h))
  }

  // The same, read off at one place of the history.
  lemma {:induction false} WellAnsweredAt(s: Script, m: Mode, h: seq<Value>, i: nat)
    requires WellAnswered(s, m, h)
    requires i < |h|
    ensures s.next(h[..i]).Call? && Answers(s.next(h[..i]).accessor, m, h[i])
  {
    if i < |h| - 1 {
      WellAnsweredAt(s, m, Front(h), i);
      assert Front(h)[..i] == h[..i];
    }
  }

  lemma Snoc(h: seq<Value>, v: Value)
    ensures Front(h + [v]) == h && Latest(h + [v]) == v
  {
  }

  // Number of Buffers that calls of the chunk iterator were answered with.
  ghost function ChunksDelivered(s: Script, h: seq<Value>): nat {
    if h == [] then 0
    else
      ChunksDelivered(s, Front(h)) +
      (if s.next(Front(h)) == Call(BodyChunks) && Latest(h).Buffer? then 1 else 0)
  }

  // ---- Scripts that are admitted ----

  // for c in h:bodyChunks() do h:headers() end
  function ChunkLoopNext(h: seq<Value>): Action {
    if h == [] then Call(BodyChunks)
    else
      match Latest(h)
      case Buffer(_, _) => Call(Headers)
      case HeaderMap(_, _) => Call(BodyChunks)
      case _ => Return
  }

  const CHUNK_LOOP := Script(true, ChunkLoopNext, (h: seq<Value>) =>
    if h != [] && Latest(h).Buffer? then 2
    else if h == [] || Latest(h).HeaderMap? then 1
    else 0)

  lemma ChunkLoopIsRanked(m: Mode)
    ensures Ranked(CHUNK_LOOP, m)
  {
    forall h: seq<Value>, v: Value
      ensures UsesRank(CHUNK_LOOP, m, h, v)
    {
      Snoc(h, v);
    }
  }

  // local b = h:body(); for i = 1, b:length() do h:headers() end
  function BodyLoopNext(h: seq<Value>): Action {
    if h == [] then Call(Body)
    else if h[0].Buffer? && |h| <= |h[0].bytes| then Call(Headers)
    else Return
  }

  // Its work is finite, and bounded by no number that is known at the start.
  lemma BodyLoopIsRanked(m: Mode, infinite: ORDINAL) returns (rank: seq<Value> -> ORDINAL)
    requires forall n: nat :: n as ORDINAL < infinite
    ensures Ranked(Script(true, BodyLoopNext, rank), m)
  {
    rank := (h: seq<Value>) =>
      if h == [] then infinite
      else if h[0].Buffer? && |h| <= |h[0].bytes| then (|h[0].bytes| + 1 - |h|) as ORDINAL
      else 0;
    forall h: seq<Value>, v: Value
      ensures UsesRank(Script(true, BodyLoopNext, rank), m, h, v)
    {
      if h == [] {
        assert (h + [v])[0] == v;
      } else {
        assert (h + [v])[0] == h[0];
      }
    }
  }
}
