// Re-framing of a provider's server-sent events: an incremental parser with a
// carry-over buffer. Chunks are decoded characters.
module SseReframing {
  import opened Sequences
  import opened TextSearch
  import opened Wrappers

  // What the provider's parser makes of an event: it raises; or it returns something
  // that cannot be written as JSON; or it returns something that is written as text.
  datatype Parsed = Refused | NotSerializable | Payload(text: string)

  // The provider's parser: any state, any JSON reader, any translation. A refusal may
  // leave the parser in another state as well.
  datatype Provider<!P, !J> = Provider(
    readJson: string -> Option<J>, parse: (P, J) -> (P, Parsed))

  // ---- Text ----

  // replace("\r\n", "\n")
  function Normalize(s: string): string {
    if s == "" then ""
    else if |s| >= 2 && s[0] == '\r' && s[1] == '\n' then ['\n'] + Normalize(s[2..])
    else [s[0]] + Normalize(s[1..])
  }

  // a and b part a carriage return from its line feed.
  predicate CutsCrLf(a: string, b: string) {
    a != "" && b != "" && a[|a| - 1] == '\r' && b[0] == '\n'
  }

  // Position of the first blank-line delimiter, or |s|.
  function Delimiter(s: string): (i: nat)
    ensures i <= |s|
    ensures i < |s| ==> i + 2 <= |s| && s[i] == s[i + 1] == '\n'
  {
    if |s| < 2 then |s|
    else if s[0] == '\n' && s[1] == '\n' then 0
    else if 1 + Delimiter(s[1..]) < |s| then 1 + Delimiter(s[1..])
    else |s|
  }

  predicate HasDelimiter(s: string) {
    exists i :: 0 <= i < |s| - 1 && s[i] == '\n' && s[i + 1] == '\n'
  }

  // ---- One event ----

  function Lines(s: string): seq<string> {
    Split(s, '\n')
  }

  // White space as str.lstrip() takes it.
  predicate IsSpace(c: char) {
    9 as char <= c <= 13 as char || 28 as char <= c <= 32 as char ||
    c in {0x85 as char, 0xA0 as char, 0x1680 as char, 0x2028 as char, 0x2029 as char,
          0x202F as char, 0x205F as char, 0x3000 as char} ||
    0x2000 as char <= c <= 0x200A as char
  }

  function StripLeft(s: string): string {
    if s != "" && IsSpace(s[0]) then StripLeft(s[1..]) else s
  }

  function DataParts(lines: seq<string>): seq<string> {
    if lines == [] then []
    else (if StartsWith(lines[0], "data:") then [StripLeft(lines[0][5..])] else []) + DataParts(lines[1..])
  }

  // _extract_sse_data: the data lines of an event, or none.
  function Extract(event: string): Option<string> {
    var parts := DataParts(Lines(event));
    if parts == [] then None else Some(Join(parts, "\n"))
  }

  // The field name is written before the payload turns out not to be serializable.
  function Framed(parsed: Parsed): string {
    match parsed
    case Refused => ""
    case NotSerializable => "data: "
    case Payload(text) => "data: " + text + "\n\n"
  }

  // What the data of an event adds to the output, and the provider's state after it.
  function Feed<P, J>(p: P, data: string, provider: Provider<P, J>): (P, string) {
    match provider.readJson(data)
    case None => (p, "")
    case Some(json) =>
      var (q, parsed) := provider.parse(p, json);
      (q, Framed(parsed))
  }

  // The same for an event.
  function Translate<P, J>(p: P, event: string, provider: Provider<P, J>): (P, string) {
    match Extract(event)
    case None => (p, "")
    case Some(data) =>
      if data == "[DONE]" then (p, "") else Feed(p, data, provider)
  }

  // ---- A text of events ----

  // The complete events of s, and what is left behind the last delimiter.
  function Events(s: string): (seq<string>, string) {
    var i := Delimiter(s);
    if i == |s| then ([], s)
    else
      var (rest, left) := Events(s[i + 2..]);
      ([s[..i]] + rest, left)
  }

  function TranslateAll<P, J>(p: P, events: seq<string>, provider: Provider<P, J>): (P, string) {
    if events == [] then (p, "")
    else
      var (q, first) := Translate(p, events[0], provider);
      var (r, rest) := TranslateAll(q, events[1..], provider);
      (r, first + rest)
  }

  const DONE := "data: [DONE]\n\n"

  // ---- The stream ----

  // The parser's state and what of the text is not a complete event yet.
  datatype Carry<P> = Carry(parser: P, buffer: string)

  // One chunk: the new carry-over and the output.
  function Chunk<P, J>(c: Carry<P>, raw: string, end: bool, provider: Provider<P, J>): (Carry<P>, string) {
    var (events, left) := Events(c.buffer + Normalize(raw));
    var (p, text) := TranslateAll(c.parser, events, provider);
    (Carry(p, left), text + if end then DONE else "")
  }

  class StreamState<!P, !J> {
    // None: the provider speaks the target format already.
    const provider: Option<Provider<P, J>>
    var parser: P
    var sseBuffer: string
    var bodyBuffer: string

    constructor (provider: Option<Provider<P, J>>, start: P)
      ensures this.provider == provider && parser == start && sseBuffer == bodyBuffer == ""
    {
      this.provider, parser, sseBuffer, bodyBuffer := provider, start, "", "";
    }

    method HandleStreamingChunk(raw: string, end: bool) returns (out: string)
      modifies `parser, `sseBuffer
      ensures provider.None? ==> out == raw && sseBuffer == old(sseBuffer) && parser == old(parser)
      ensures provider.Some? ==>
                && (Carry(parser, sseBuffer), out) ==
                   Chunk(Carry(old(parser), old(sseBuffer)), raw, end, provider.value)
                && !HasDelimiter(sseBuffer)
    {
      hide Delimiter, Normalize, Extract, Events, TranslateAll;
      if provider.None? {
        return raw;
      }
      sseBuffer := sseBuffer + Normalize(raw);
      out := "";
      ghost var text := sseBuffer;
      ghost var all := TranslateAll(parser, Events(text).0, provider.value);
      assert "" + all.1 == all.1;
      while Delimiter(sseBuffer) < |sseBuffer|
        invariant Events(text).1 == Events(sseBuffer).1
        invariant all.0 == TranslateAll(parser, Events(sseBuffer).0, provider.value).0
        invariant all.1 == out + TranslateAll(parser, Events(sseBuffer).0, provider.value).1
        decreases |sseBuffer|
      {
        var i := Delimiter(sseBuffer);
        var event := sseBuffer[..i];
        EventsStep(sseBuffer);
        ghost var rest := Events(sseBuffer[i + 2..]).0;
        TranslateStep(parser, out, event, rest, provider.value);
        WithEmpty(out);
        sseBuffer := sseBuffer[i + 2..];
        var data := Extract(event);
        if data.None? || data.value == "[DONE]" {
          continue;
        }
        var json := provider.value.readJson(data.value);
        if json.None? {
          continue;
        }
        var (q, parsed) := provider.value.parse(parser, json.value);
        parser := q;
        if !parsed.Refused? {
          ghost var before := out;
          out := out + "data: ";
          if parsed.Payload? {
            FramedInPieces(before, parsed.text);
            out := out + parsed.text;
            out := out + "\n\n";
          }
        }
      }
      NoDelimiter(sseBuffer);
      EventsStep(sseBuffer);
      TranslateNothing(parser, provider.value);
      assert out + "" == out;
      if end {
        out := out + DONE;
      } else {
        assert out + "" == out;
      }
    }

    // The body is held back until it is whole; transform may fail.
    method HandleBufferedChunk(raw: string, end: bool, transform: string -> Option<string>)
      returns (out: string)
      modifies `bodyBuffer
      ensures (bodyBuffer, out) == Buffered(old(bodyBuffer), raw, end, transform)
    {
      bodyBuffer := bodyBuffer + raw;
      if !end {
        return "";
      }
      var whole := transform(bodyBuffer);
      out := if whole.Some? then whole.value else bodyBuffer;
    }
  }

  // ---- A body that is not streamed ----

  // One chunk: what has come so far, and the output.
  function Buffered(buffer: string, raw: string, end: bool, transform: string -> Option<string>): (string, string) {
    var whole := buffer + raw;
    (whole, if !end then "" else if transform(whole).Some? then transform(whole).value else whole)
  }

  // The outputs over a body whose last chunk is flagged as the end.
  function BufferedOutputs(buffer: string, chunks: seq<string>, transform: string -> Option<string>): seq<string>
    decreases |chunks|
  {
    if chunks == [] then []
    else
      var (whole, out) := Buffered(buffer, chunks[0], |chunks| == 1, transform);
      [out] + BufferedOutputs(whole, chunks[1..], transform)
  }

  lemma BufferedStep(buffer: string, raw: string, end: bool, transform: string -> Option<string>)
    ensures var (whole, out) := Buffered(buffer, raw, end, transform);
            && whole == buffer + raw
            && (!end ==> out == "")
            && (end ==> out == match transform(whole) case Some(t) => t case None => whole)
  {
  }

  // However the body is cut: nothing goes out before the end, and then the transform of
  // the whole body, or the body as it came if the transform fails.
  lemma {:induction false} BufferedIsOfTheWhole(
    buffer: string, chunks: seq<string>, transform: string -> Option<string>)
    requires chunks != []
    ensures var outs, whole := BufferedOutputs(buffer, chunks, transform), buffer + Flatten(chunks);
            && |outs| == |chunks|
            && (forall i | 0 <= i < |chunks| - 1 :: outs[i] == "")
            && (transform(whole).Some? ==> outs[|chunks| - 1] == transform(whole).value)
            && (transform(whole).None? ==> outs[|chunks| - 1] == whole)
    decreases |chunks|
  {
    hide Buffered;
    var first, rest := chunks[0], chunks[1..];
    var (whole, out) := Buffered(buffer, first, |chunks| == 1, transform);
    BufferedStep(buffer, first, |chunks| == 1, transform);
    Associate(buffer, first, Flatten(rest));
    TailOfCons(out, BufferedOutputs(whole, rest, transform));
    if rest == [] {
      WithEmpty(first);
    } else {
      BufferedIsOfTheWhole(whole, rest, transform);
    }
  }

  lemma TranslateNothing<P, J>(p: P, provider: Provider<P, J>)
    ensures TranslateAll(p, [], provider) == (p, "")
  {
  }

  lemma TranslateStep<P, J>(p: P, out: string, event: string, rest: seq<string>, provider: Provider<P, J>)
    ensures var (q, first) := Translate(p, event, provider);
            var all := TranslateAll(p, [event] + rest, provider);
            && all.0 == TranslateAll(q, rest, provider).0
            && out + all.1 == (out + first) + TranslateAll(q, rest, provider).1
  {
    TailOfCons(event, rest);
  }

  lemma FramedInPieces(out: string, text: string)
    ensures ((out + "data: ") + text) + "\n\n" == out + Framed(Payload(text))
  {
  }

  lemma {:induction false} NoDelimiter(s: string)
    ensures Delimiter(s) == |s| <==> !HasDelimiter(s)
  {
    if |s| >= 2 && !(s[0] == '\n' && s[1] == '\n') {
      var t := s[1..];
      NoDelimiter(t);
      if HasDelimiter(t) {
        var i :| 0 <= i < |t| - 1 && t[i] == '\n' && t[i + 1] == '\n';
        assert s[i + 1] == '\n' && s[i + 2] == '\n';
      }
      if HasDelimiter(s) {
        var i :| 0 <= i < |s| - 1 && s[i] == '\n' && s[i + 1] == '\n';
        assert t[i - 1] == '\n' && t[i] == '\n';
      }
    }
  }

  // ---- Independence of the chunking ----

  // No CRLF pair is cut.
  predicate NoCut(chunks: seq<string>) {
    chunks == [] || (!CutsCrLf(chunks[0], Flatten(chunks[1..])) && NoCut(chunks[1..]))
  }

  // The output over a stream whose last chunk is flagged as the end.
  function Output<P, J>(c: Carry<P>, chunks: seq<string>, provider: Provider<P, J>): string
    decreases |chunks|
  {
    if chunks == [] then ""
    else
      var (next, out) := Chunk(c, chunks[0], |chunks| == 1, provider);
      out + Output(next, chunks[1..], provider)
  }

  predicate PairFirst(s: string) {
    |s| >= 2 && s[0] == '\r' && s[1] == '\n'
  }

  lemma NormalizeStep(s: string)
    requires s != ""
    ensures PairFirst(s) ==> Normalize(s) == "\n" + Normalize(s[2..])
    ensures !PairFirst(s) ==> Normalize(s) == [s[0]] + Normalize(s[1..])
  {
  }

  lemma NormalizeShort(s: string)
    ensures |s| <= 1 ==> Normalize(s) == s
  {
  }

  lemma {:induction false} NormalizeConcat(a: string, b: string)
    ensures !CutsCrLf(a, b) ==> Normalize(a + b) == Normalize(a) + Normalize(b)
    ensures CutsCrLf(a, b) ==> |Normalize(a + b)| < |Normalize(a) + Normalize(b)|
    decreases |a|, 1
  {
    hide Normalize;
    NormalizeShort(a);
    if a == "" {
      assert a + b == b && "" + Normalize(b) == Normalize(b);
    } else if |a| == 1 {
      NormalizeStep(a + b);
      assert (a + b)[1..] == b;
      if CutsCrLf(a, b) {
        NormalizeStep(b);
        assert (a + b)[2..] == b[1..];
      }
    } else {
      NormalizeStep(a);
      NormalizeStep(a + b);
      NormalizeRest(a, b, if PairFirst(a) then 2 else 1);
    }
  }

  lemma NormalizeRest(a: string, b: string, n: nat)
    requires |a| >= 2 && n == if PairFirst(a) then 2 else 1
    ensures PairFirst(a + b) == PairFirst(a) && (a + b)[0] == a[0] && (a + b)[n..] == a[n..] + b
    ensures CutsCrLf(a, b) <==> CutsCrLf(a[n..], b)
    ensures !CutsCrLf(a[n..], b) ==> Normalize(a[n..] + b) == Normalize(a[n..]) + Normalize(b)
    ensures CutsCrLf(a[n..], b) ==> |Normalize(a[n..] + b)| < |Normalize(a[n..]) + Normalize(b)|
    decreases |a|, 0
  {
    hide Normalize;
    NormalizeConcat(a[n..], b);
  }

  function NormalizeEach(chunks: seq<string>): string {
    if chunks == [] then "" else Normalize(chunks[0]) + NormalizeEach(chunks[1..])
  }

  lemma NormalizeOneText(text: string)
    ensures NormalizeEach([text]) == Normalize(text)
  {
    hide Normalize;
    assert [text][1..] == [];
    WithEmpty(Normalize(text));
  }

  lemma {:induction false} NormalizeEachLonger(chunks: seq<string>)
    ensures NoCut(chunks) ==> NormalizeEach(chunks) == Normalize(Flatten(chunks))
    ensures !NoCut(chunks) ==> |NormalizeEach(chunks)| > |Normalize(Flatten(chunks))|
  {
    if chunks != [] {
      NormalizeEachLonger(chunks[1..]);
      NormalizeConcat(chunks[0], Flatten(chunks[1..]));
    }
  }

  // Chunk by chunk, line ends come out as they would on the whole text exactly if no
  // pair is cut.
  lemma LineEndsSurviveChunking(chunks: seq<string>)
    ensures NormalizeEach(chunks) == Normalize(Flatten(chunks)) <==> NoCut(chunks)
  {
    NormalizeEachLonger(chunks);
  }

  lemma {:induction false} DelimiterOfPrefix(a: string, b: string)
    requires Delimiter(a) < |a|
    ensures Delimiter(a + b) == Delimiter(a)
  {
    if !(a[0] == '\n' && a[1] == '\n') {
      DelimiterOfPrefix(a[1..], b);
      TailOfConcat(a, b);
    }
  }

  lemma {:induction false} EventsStep(s: string)
    ensures var i := Delimiter(s);
            Events(s) == if i == |s| then ([], s)
                         else ([s[..i]] + Events(s[i + 2..]).0, Events(s[i + 2..]).1)
  {
    hide Delimiter;
  }

  // Splitting can stop anywhere and go on with what is left.
  lemma {:induction false} EventsConcat(a: string, b: string)
    ensures var (first, left) := Events(a);
            var (more, rest) := Events(left + b);
            Events(a + b) == (first + more, rest)
    decreases |a|
  {
    hide Events, Delimiter;
    var i := Delimiter(a);
    EventsStep(a);
    if i < |a| {
      DelimiterOfPrefix(a, b);
      EventsConcat(a[i + 2..], b);
      EventsStep(a + b);
      assert (a + b)[i + 2..] == a[i + 2..] + b && (a + b)[..i] == a[..i];
      Associate([a[..i]], Events(a[i + 2..]).0, Events(Events(a).1 + b).0);
    } else {
      assert [] + Events(a + b).0 == Events(a + b).0;
    }
  }

  lemma {:induction false} NothingLeftToSplit(s: string)
    ensures Events(Events(s).1) == ([], Events(s).1)
    ensures !HasDelimiter(Events(s).1)
    decreases |s|
  {
    var i := Delimiter(s);
    if i < |s| {
      NothingLeftToSplit(s[i + 2..]);
    } else {
      NoDelimiter(s);
    }
  }

  lemma {:induction false} TranslateConcat<P, J>(p: P, a: seq<string>, b: seq<string>, provider: Provider<P, J>)
    ensures var (q, first) := TranslateAll(p, a, provider);
            var (r, more) := TranslateAll(q, b, provider);
            TranslateAll(p, a + b, provider) == (r, first + more)
  {
    hide Translate;
    if a == [] {
      WithEmpty(b);
      var all := TranslateAll(p, b, provider).1;
      assert "" + all == all;
    } else {
      var (q, first) := Translate(p, a[0], provider);
      TranslateConcat(q, a[1..], b, provider);
      TailOfConcat(a, b);
      var (r, middle) := TranslateAll(q, a[1..], provider);
      Associate(first, middle, TranslateAll(r, b, provider).1);
    }
  }

  lemma {:induction false} OutputOfNormalized<P, J>(c: Carry<P>, chunks: seq<string>, provider: Provider<P, J>)
    requires chunks != []
    ensures Output(c, chunks, provider) ==
            TranslateAll(c.parser, Events(c.buffer + NormalizeEach(chunks)).0, provider).1 + DONE
    decreases |chunks|
  {
    hide Translate, Events, Normalize;
    var first, rest := Normalize(chunks[0]), NormalizeEach(chunks[1..]);
    var a := c.buffer + first;
    var (events, left) := Events(a);
    var (p, text) := TranslateAll(c.parser, events, provider);
    Associate(c.buffer, first, rest);
    if |chunks| == 1 {
      assert a + "" == a && rest == "";
      assert Output(c, chunks, provider) == (text + DONE) + "";
    } else {
      OutputOfNormalized(Carry(p, left), chunks[1..], provider);
      EventsConcat(a, rest);
      var (more, _) := Events(left + rest);
      TranslateConcat(c.parser, events, more, provider);
      assert text + "" == text;
      Associate(text, TranslateAll(p, more, provider).1, DONE);
    }
  }

  // ---- Exactly which chunkings give the same events, and the same output ----

  // The text that splits into these events and this rest.
  function Unsplit(events: seq<string>, left: string): string {
    if events == [] then left else events[0] + "\n\n" + Unsplit(events[1..], left)
  }

  lemma {:induction false} UnsplitEvents(s: string)
    ensures Unsplit(Events(s).0, Events(s).1) == s
    decreases |s|
  {
    hide Events, Delimiter;
    var i := Delimiter(s);
    EventsStep(s);
    if i < |s| {
      var event, rest := s[..i], s[i + 2..];
      UnsplitEvents(rest);
      TailOfCons(event, Events(rest).0);
      assert s == event + "\n\n" + rest;
    }
  }

  // No blank line in the event, and none where its delimiter begins.
  predicate OneEventText(event: string) {
    !HasDelimiter(event + "\n")
  }

  lemma {:induction false} DelimiterBehind(event: string, rest: string)
    requires OneEventText(event)
    ensures Delimiter(event + "\n\n" + rest) == |event|
  {
    var s, line := event + "\n\n" + rest, event + "\n";
    if event != "" {
      assert line[0] == s[0] && line[1] == s[1];
      var tail := event[1..] + "\n";
      assert forall i | 0 <= i < |tail| :: tail[i] == line[i + 1];
      DelimiterBehind(event[1..], rest);
      assert s[1..] == event[1..] + "\n\n" + rest;
    }
  }

  // And splitting finds the events that a text was put together from.
  lemma {:induction false} EventsAreFound(events: seq<string>, left: string)
    requires (forall event | event in events :: OneEventText(event)) && !HasDelimiter(left)
    ensures Events(Unsplit(events, left)) == (events, left)
  {
    hide Delimiter, Events, OneEventText, HasDelimiter;
    var s := Unsplit(events, left);
    EventsStep(s);
    if events == [] {
      NoDelimiter(left);
    } else {
      var rest := Unsplit(events[1..], left);
      DelimiterBehind(events[0], rest);
      EventsAreFound(events[1..], left);
      assert |s| > |events[0]| && s[..|events[0]|] == events[0] && s[|events[0]| + 2..] == rest;
      assert events == [events[0]] + events[1..];
    }
  }

  // The parser finds the events of the whole text exactly if no pair is cut.
  lemma EventsSurviveChunking(chunks: seq<string>)
    ensures Events(NormalizeEach(chunks)) == Events(Normalize(Flatten(chunks))) <==> NoCut(chunks)
  {
    hide Events, Unsplit;
    LineEndsSurviveChunking(chunks);
    UnsplitEvents(NormalizeEach(chunks));
    UnsplitEvents(Normalize(Flatten(chunks)));
  }

  // What of the events is handed to the JSON reader.
  function Data(events: seq<string>): seq<string> {
    if events == [] then []
    else
      (match Extract(events[0])
       case None => []
       case Some(data) => if data == "[DONE]" then [] else [data]) + Data(events[1..])
  }

  function DataOf(chunks: seq<string>): seq<string> {
    Data(Events(NormalizeEach(chunks)).0)
  }

  function FeedAll<P, J>(p: P, data: seq<string>, provider: Provider<P, J>): (P, string) {
    if data == [] then (p, "")
    else
      var (q, first) := Feed(p, data[0], provider);
      var (r, rest) := FeedAll(q, data[1..], provider);
      (r, first + rest)
  }

  lemma {:induction false} OnlyDataCounts<P, J>(p: P, events: seq<string>, provider: Provider<P, J>)
    ensures TranslateAll(p, events, provider) == FeedAll(p, Data(events), provider)
  {
    hide Extract, Feed;
    if events != [] {
      var (q, first) := Translate(p, events[0], provider);
      OnlyDataCounts(q, events[1..], provider);
      var rest, all := Data(events[1..]), Data(events);
      WithEmpty(rest);
      WithEmpty(TranslateAll(q, events[1..], provider).1);
      if all != rest {
        assert all[1..] == rest;
      }
    }
  }

  // However the stream is cut: the output is that of its data, fed to the provider in
  // order, and then the end marker, once.
  lemma OutputIsOfTheData<P, J>(start: P, chunks: seq<string>, provider: Provider<P, J>)
    requires chunks != []
    ensures Output(Carry(start, ""), chunks, provider) ==
            FeedAll(start, DataOf(chunks), provider).1 + DONE
  {
    hide Output, Events, NormalizeEach, TranslateAll, FeedAll, Data;
    OutputOfNormalized(Carry(start, ""), chunks, provider);
    WithEmpty(NormalizeEach(chunks));
    OnlyDataCounts(start, Events(NormalizeEach(chunks)).0, provider);
  }

  // The state is the data that is still expected.
  const CRITIC: Provider<seq<string>, string> := Provider(
    s => Some(s), (p, s) => if p != [] && p[0] == s then (p[1..], Payload("a")) else (p, Payload("b")))

  lemma {:induction false} CriticTells(expected: seq<string>, data: seq<string>)
    ensures FeedAll(expected, data, CRITIC).1 == FeedAll(expected, expected, CRITIC).1 <==> data == expected
    decreases |expected|
  {
    var good, bad := "data: a\n\n", "data: b\n\n";
    assert Framed(Payload("a")) == good && Framed(Payload("b")) == bad;
    if expected != [] && data != [] {
      var (e, d) := (expected[1..], data[1..]);
      var right := FeedAll(e, e, CRITIC).1;
      assert FeedAll(expected, expected, CRITIC).1 == good + right;
      if data[0] == expected[0] {
        CriticTells(e, d);
        var text := FeedAll(e, d, CRITIC).1;
        assert (good + text)[|good|..] == text && (good + right)[|good|..] == right;
        TailsAgree(data, expected);
      } else {
        var text := FeedAll(expected, d, CRITIC).1;
        assert (bad + text)[6] == 'b' && (good + right)[6] == 'a';
      }
    }
  }

  lemma TailsAgree<T>(s: seq<T>, t: seq<T>)
    requires s != [] && t != [] && s[0] == t[0]
    ensures s[1..] == t[1..] <==> s == t
  {
    assert s == [s[0]] + s[1..] && t == [t[0]] + t[1..];
  }

  // No provider tells the two chunkings apart.
  ghost predicate SameOutput(a: seq<string>, b: seq<string>) {
    forall start: seq<string>, provider: Provider<seq<string>, string> ::
      Output(Carry(start, ""), a, provider) == Output(Carry(start, ""), b, provider)
  }

  // Any two chunkings, of whatever streams: the output is the same for every provider
  // exactly if the data is.
  lemma SameOutputMeansSameData(a: seq<string>, b: seq<string>)
    requires a != [] && b != []
    ensures SameOutput(a, b) <==> DataOf(a) == DataOf(b)
  {
    hide Output, FeedAll, DataOf;
    if DataOf(a) == DataOf(b) {
      forall start: seq<string>, provider: Provider<seq<string>, string>
        ensures Output(Carry(start, ""), a, provider) == Output(Carry(start, ""), b, provider)
      {
        SameDataSameOutput(start, a, b, provider);
      }
    }
    if SameOutput(a, b) {
      var expected := DataOf(b);
      OutputIsOfTheData(expected, a, CRITIC);
      OutputIsOfTheData(expected, b, CRITIC);
      CriticTells(expected, DataOf(a));
      CancelEnd(FeedAll(expected, DataOf(a), CRITIC).1, FeedAll(expected, expected, CRITIC).1, DONE);
    }
  }

  lemma CancelEnd<T>(a: seq<T>, b: seq<T>, end: seq<T>)
    requires a + end == b + end
    ensures a == b
  {
    assert |a + end| == |b + end|;
    assert (a + end)[..|a|] == a && (b + end)[..|b|] == b;
  }

  lemma SameDataSameOutput<P, J>(start: P, a: seq<string>, b: seq<string>, provider: Provider<P, J>)
    requires a != [] && b != [] && DataOf(a) == DataOf(b)
    ensures Output(Carry(start, ""), a, provider) == Output(Carry(start, ""), b, provider)
  {
    hide Output, FeedAll, DataOf;
    OutputIsOfTheData(start, a, provider);
    OutputIsOfTheData(start, b, provider);
  }

  // A stream in chunks and the same stream in one chunk: the output is the same for
  // every provider exactly if the data is that of the whole text.
  lemma OutputIsOfTheWhole(chunks: seq<string>)
    requires chunks != []
    ensures SameOutput(chunks, [Flatten(chunks)]) <==>
            DataOf(chunks) == Data(Events(Normalize(Flatten(chunks))).0)
  {
    hide SameOutput, Data, Events, NormalizeEach, Normalize;
    SameOutputMeansSameData(chunks, [Flatten(chunks)]);
    NormalizeOneText(Flatten(chunks));
  }

  // For any provider, and any two chunkings of a stream that cut no CRLF pair.
  lemma ChunkingIsIrrelevant<P, J>(start: P, a: seq<string>, b: seq<string>, provider: Provider<P, J>)
    requires a != [] && b != [] && NoCut(a) && NoCut(b) && Flatten(a) == Flatten(b)
    ensures Output(Carry(start, ""), a, provider) == Output(Carry(start, ""), b, provider)
  {
    hide Output, Data, Events, NormalizeEach, Normalize;
    EventsSurviveChunking(a);
    EventsSurviveChunking(b);
    SameDataSameOutput(start, a, b, provider);
  }

  // ---- What is extracted from an event of any lines ----

  // One line, and no white space at its front.
  predicate Clean(s: string) {
    '\n' !in s && (s != "" ==> !IsSpace(s[0]))
  }

  ghost predicate AreLines(lines: seq<string>) {
    forall line | line in lines :: '\n' !in line
  }

  lemma {:induction false} PartsConcat(a: seq<string>, b: seq<string>)
    ensures DataParts(a + b) == DataParts(a) + DataParts(b)
  {
    hide StripLeft;
    if a == [] {
      WithEmpty(b);
      WithEmpty(DataParts(b));
    } else {
      PartsConcat(a[1..], b);
      TailOfConcat(a, b);
      Associate(if StartsWith(a[0], "data:") then [StripLeft(a[0][5..])] else [], DataParts(a[1..]), DataParts(b));
    }
  }

  lemma {:induction false} NoParts(lines: seq<string>)
    ensures DataParts(lines) == [] <==> forall line | line in lines :: !StartsWith(line, "data:")
  {
    hide StripLeft, StartsWith;
    if lines != [] {
      NoParts(lines[1..]);
      assert forall line :: line in lines <==> line == lines[0] || line in lines[1..];
    }
  }

  lemma ExtractOfLines(lines: seq<string>)
    requires AreLines(lines)
    ensures Extract(Join(lines, "\n")) ==
            if DataParts(lines) == [] then None else Some(Join(DataParts(lines), "\n"))
  {
    hide DataParts, Split;
    if lines == [] {
      assert Join(lines, "\n") == "";
      NoLines();
    } else {
      SplitJoined(lines, '\n');
    }
  }

  lemma NoLines()
    ensures DataParts(Lines("")) == [] == DataParts([])
  {
    assert [""][1..] == [];
  }

  // An event has data exactly if one of its lines begins with the field name.
  lemma EventHasData(lines: seq<string>)
    requires AreLines(lines)
    ensures Extract(Join(lines, "\n")).Some? <==> exists line :: line in lines && StartsWith(line, "data:")
  {
    hide Extract, StartsWith, DataParts;
    ExtractOfLines(lines);
    NoParts(lines);
  }

  // All other lines may come and go, wherever they stand.
  lemma OtherLinesAreIgnored(before: seq<string>, line: string, after: seq<string>)
    requires AreLines(before) && AreLines([line]) && AreLines(after) && !StartsWith(line, "data:")
    ensures Extract(Join(before + [line] + after, "\n")) == Extract(Join(before + after, "\n"))
  {
    hide Extract, StartsWith, DataParts;
    NoParts([line]);
    PartsConcat(before, [line]);
    PartsConcat(before + [line], after);
    PartsConcat(before, after);
    WithEmpty(DataParts(before));
    ExtractOfLines(before + [line] + after);
    ExtractOfLines(before + after);
  }

  lemma SpacesAre(c: char)
    ensures IsSpace(c) <==>
            c as int in {0x9, 0xA, 0xB, 0xC, 0xD, 0x1C, 0x1D, 0x1E, 0x1F, 0x20, 0x85, 0xA0, 0x1680,
                         0x2000, 0x2001, 0x2002, 0x2003, 0x2004, 0x2005, 0x2006, 0x2007, 0x2008, 0x2009, 0x200A,
                         0x2028, 0x2029, 0x202F, 0x205F, 0x3000}
  {
  }

  // A data line: white space may stand in front of the payload.
  predicate DataLine(line: string, lead: string, payload: string) {
    line == "data:" + lead + payload && Clean(payload) && forall c | c in lead :: IsSpace(c) && c != '\n'
  }

  ghost predicate DataLines(lines: seq<string>, leads: seq<string>, payloads: seq<string>) {
    |lines| == |leads| == |payloads| && forall i | 0 <= i < |lines| :: DataLine(lines[i], leads[i], payloads[i])
  }

  lemma {:induction false} StripLead(lead: string, payload: string)
    requires (forall c | c in lead :: IsSpace(c)) && (payload != "" ==> !IsSpace(payload[0]))
    ensures StripLeft(lead + payload) == payload
  {
    hide IsSpace;
    if lead == "" {
      WithEmpty(payload);
    } else {
      StripLead(lead[1..], payload);
      TailOfConcat(lead, payload);
    }
  }

  lemma PartOfLine(line: string, lead: string, payload: string)
    requires DataLine(line, lead, payload)
    ensures StartsWith(line, "data:") && StripLeft(line[5..]) == payload && '\n' !in line
  {
    assert line[..5] == "data:" && line[5..] == lead + payload;
    StripLead(lead, payload);
  }

  lemma {:induction false} PartsOfDataLines(lines: seq<string>, leads: seq<string>, payloads: seq<string>)
    requires DataLines(lines, leads, payloads)
    ensures AreLines(lines) && DataParts(lines) == payloads
  {
    hide DataLine, StripLeft, StartsWith;
    if lines != [] {
      PartOfLine(lines[0], leads[0], payloads[0]);
      PartsOfDataLines(lines[1..], leads[1..], payloads[1..]);
      assert forall line :: line in lines <==> line == lines[0] || line in lines[1..];
      assert payloads == [payloads[0]] + payloads[1..];
    }
  }

  // The payloads of the data lines are the data, joined.
  lemma DataLinesExtract(lines: seq<string>, leads: seq<string>, payloads: seq<string>)
    requires DataLines(lines, leads, payloads) && lines != []
    ensures Extract(Join(lines, "\n")) == Some(Join(payloads, "\n"))
  {
    hide Extract, DataParts, DataLine, DataLines;
    PartsOfDataLines(lines, leads, payloads);
    ExtractOfLines(lines);
    SameLength(lines, leads, payloads);
  }

  lemma SameLength(lines: seq<string>, leads: seq<string>, payloads: seq<string>)
    requires DataLines(lines, leads, payloads)
    ensures |lines| == |payloads|
  {
  }

  // Events without data, and those with the provider's end marker, reach no reader.
  lemma {:induction false} OtherEventsAreIgnored(before: seq<string>, event: string, after: seq<string>)
    requires Extract(event) in {None, Some("[DONE]")}
    ensures Data(before + [event] + after) == Data(before + after)
    ensures "[DONE]" !in Data(before + after)
  {
    hide Extract;
    if before == [] {
      WithEmpty([event]);
      WithEmpty(after);
      TailOfCons(event, after);
      WithEmpty(Data(after));
      NoMarkers(after);
    } else {
      OtherEventsAreIgnored(before[1..], event, after);
      TailOfConcat(before, after);
      TailOfConcat(before, [event]);
      TailOfConcat(before + [event], after);
    }
  }

  lemma {:induction false} NoMarkers(events: seq<string>)
    ensures "[DONE]" !in Data(events)
  {
    hide Extract;
    if events != [] {
      NoMarkers(events[1..]);
    }
  }

  // ---- The output is well framed ----

  function EventOf(payload: string): string {
    "data: " + payload
  }

  function EventsOf(payloads: seq<string>): seq<string> {
    if payloads == [] then [] else [EventOf(payloads[0])] + EventsOf(payloads[1..])
  }

  lemma DelimiterAfterLine(line: string, rest: string)
    requires '\n' !in line
    ensures Delimiter(line + "\n\n" + rest) == |line|
  {
    assert forall i | 0 <= i < |line| :: (line + "\n")[i] == line[i];
    DelimiterBehind(line, rest);
  }

  // Extraction undoes the framing.
  lemma ExtractUndoesFraming(payload: string)
    requires Clean(payload)
    ensures Extract(EventOf(payload)) == Some(payload)
  {
    hide Extract;
    assert "data: " + payload == "data:" + " " + payload;
    DataLinesExtract([EventOf(payload)], [" "], [payload]);
  }

  // What the provider makes of a sequence of data, each read in the state that the one
  // before has left.
  function Payloads<P, J>(p: P, data: seq<string>, provider: Provider<P, J>): seq<Parsed> {
    if data == [] then []
    else
      match provider.readJson(data[0])
      case None => Payloads(p, data[1..], provider)
      case Some(json) =>
        var (q, parsed) := provider.parse(p, json);
        [parsed] + Payloads(q, data[1..], provider)
  }

  function Texts(parsed: seq<Parsed>): seq<string> {
    if parsed == [] then []
    else (if parsed[0].Payload? then [parsed[0].text] else []) + Texts(parsed[1..])
  }

  function FramedAll(parsed: seq<Parsed>): string {
    if parsed == [] then "" else Framed(parsed[0]) + FramedAll(parsed[1..])
  }

  lemma {:induction false} OutputIsFramed<P, J>(p: P, data: seq<string>, provider: Provider<P, J>)
    ensures FeedAll(p, data, provider).1 == FramedAll(Payloads(p, data, provider))
  {
    hide Framed;
    if data != [] {
      var (q, first) := Feed(p, data[0], provider);
      OutputIsFramed(q, data[1..], provider);
      var rest := Payloads(q, data[1..], provider);
      WithEmpty(FeedAll(q, data[1..], provider).1);
      if provider.readJson(data[0]).Some? {
        TailOfCons(provider.parse(p, provider.readJson(data[0]).value).1, rest);
      }
    }
  }

  // What a client finds when it splits the output at blank lines. lead is the field
  // name that was written for payloads before this point, and is still dangling.
  function Seen(parsed: seq<Parsed>, lead: string): seq<string> {
    if parsed == [] then [lead + EventOf("[DONE]")]
    else
      match parsed[0]
      case Refused => Seen(parsed[1..], lead)
      case NotSerializable => Seen(parsed[1..], lead + "data: ")
      case Payload(text) => [lead + EventOf(text)] + Seen(parsed[1..], "")
  }

  lemma {:induction false} FramedSplits(parsed: seq<Parsed>, lead: string)
    requires '\n' !in lead && forall text | text in Texts(parsed) :: '\n' !in text
    ensures Events(lead + FramedAll(parsed) + DONE) == (Seen(parsed, lead), "")
    decreases |parsed|
  {
    hide Events;
    if parsed == [] {
      assert lead + "" == lead;
      EndIsOneEvent(lead);
    } else {
      var rest := FramedAll(parsed[1..]);
      match parsed[0] {
        case Refused =>
          assert "" + rest == rest;
          FramedSplits(parsed[1..], lead);
        case NotSerializable =>
          Associate(lead, "data: ", rest);
          FramedSplits(parsed[1..], lead + "data: ");
        case Payload(text) =>
          assert text in Texts(parsed);
          FramedSplits(parsed[1..], "");
          assert "" + rest == rest;
          assert EventOf(text) == "data: " + text;
          OneEvent(lead + EventOf(text), rest + DONE);
          Regroup(lead, EventOf(text), "\n\n", rest, DONE);
      }
    }
  }

  lemma EndIsOneEvent(lead: string)
    requires '\n' !in lead
    ensures Events(lead + DONE) == ([lead + EventOf("[DONE]")], "")
  {
    hide Events;
    var line := lead + EventOf("[DONE]");
    OneEvent(line, "");
    NoEvents();
    assert EventOf("[DONE]") + "\n\n" == DONE;
    Associate(lead, EventOf("[DONE]"), "\n\n");
    assert line + "\n\n" + "" == lead + DONE;
    assert [line] + Events("").0 == [line];
  }

  lemma Regroup<T>(a: seq<T>, b: seq<T>, c: seq<T>, d: seq<T>, e: seq<T>)
    ensures a + ((b + c) + d) + e == (a + b) + c + (d + e)
  {
  }

  lemma OneEvent(line: string, rest: string)
    requires '\n' !in line
    ensures Events(line + "\n\n" + rest) == ([line] + Events(rest).0, Events(rest).1)
  {
    var s := line + "\n\n" + rest;
    DelimiterAfterLine(line, rest);
    EventsStep(s);
    assert s[..|line|] == line && s[|line| + 2..] == rest;
  }

  lemma NoEvents()
    ensures Events("") == ([], "")
  {
  }

  // Every payload is seen as its own event exactly if none leaves its field name behind.
  lemma {:induction false} SeenAsSent(parsed: seq<Parsed>, lead: string)
    ensures Seen(parsed, lead) == EventsOf(Texts(parsed)) + [EventOf("[DONE]")] <==>
            lead == "" && NotSerializable !in parsed
    decreases |parsed|
  {
    hide EventOf;
    if parsed == [] {
      WithEmpty([EventOf("[DONE]")]);
      LeadIsSeen(lead, EventOf("[DONE]"));
      assert [lead + EventOf("[DONE]")] == [EventOf("[DONE]")] <==> lead == "";
    } else {
      var rest := parsed[1..];
      InHeadOrTail(NotSerializable, parsed);
      WithEmpty(Texts(rest));
      match parsed[0] {
        case Refused =>
          SeenAsSent(rest, lead);
        case NotSerializable =>
          SeenAsSent(rest, lead + "data: ");
          assert |lead + "data: "| > 0;
        case Payload(text) =>
          SeenAsSent(rest, "");
          LeadIsSeen(lead, EventOf(text));
          TailOfCons(text, Texts(rest));
          Associate([EventOf(text)], EventsOf(Texts(rest)), [EventOf("[DONE]")]);
          SameHeadAndTail(lead + EventOf(text), Seen(rest, ""), EventOf(text),
                          EventsOf(Texts(rest)) + [EventOf("[DONE]")]);
      }
    }
  }

  lemma InHeadOrTail<T>(x: T, s: seq<T>)
    requires s != []
    ensures x in s <==> x == s[0] || x in s[1..]
  {
    assert s == [s[0]] + s[1..];
  }

  lemma LeadIsSeen(lead: string, event: string)
    ensures lead + event == event <==> lead == ""
  {
    assert |lead + event| == |lead| + |event|;
  }

  lemma SameHeadAndTail(a: string, s: seq<string>, b: string, t: seq<string>)
    ensures [a] + s == [b] + t <==> a == b && s == t
  {
    assert ([a] + s)[0] == a && ([a] + s)[1..] == s;
    assert ([b] + t)[0] == b && ([b] + t)[1..] == t;
  }

  // However the stream is cut, a client that splits the output finds one event for each
  // payload, in order, then the end marker, and nothing left over, exactly if every
  // payload could be written as JSON. Otherwise it finds the events that Seen lists.
  lemma OutputReadsBack<P, J>(start: P, chunks: seq<string>, provider: Provider<P, J>)
    requires chunks != []
    requires forall text | text in Texts(Payloads(start, DataOf(chunks), provider)) :: '\n' !in text
    ensures var parsed := Payloads(start, DataOf(chunks), provider);
            var found := Events(Output(Carry(start, ""), chunks, provider));
            && found == (Seen(parsed, ""), "")
            && (found == (EventsOf(Texts(parsed)) + [EventOf("[DONE]")], "") <==> NotSerializable !in parsed)
  {
    hide DataOf, FeedAll, Events, Output, Payloads, Texts, FramedAll, Seen, EventsOf;
    var parsed := Payloads(start, DataOf(chunks), provider);
    OutputIsOfTheData(start, chunks, provider);
    OutputIsFramed(start, DataOf(chunks), provider);
    FramedSplits(parsed, "");
    assert "" + FramedAll(parsed) == FramedAll(parsed);
    SeenAsSent(parsed, "");
  }

  // The end marker is found as such exactly if nothing dangles in front of it.
  lemma {:induction false} EndMarkerIsSeen(parsed: seq<Parsed>, lead: string)
    ensures Seen(parsed, lead) != []
    ensures var seen := Seen(parsed, lead);
            seen[|seen| - 1] == EventOf("[DONE]") <==> !Dangles(parsed, lead != "")
    decreases |parsed|
  {
    hide EventOf;
    if parsed == [] {
      LeadIsSeen(lead, EventOf("[DONE]"));
    } else {
      EndMarkerIsSeen(parsed[1..], match parsed[0]
                                   case Refused => lead
                                   case NotSerializable => lead + "data: "
                                   case Payload(_) => "");
    }
  }

  // The last payload that left anything behind could not be written.
  predicate Dangles(parsed: seq<Parsed>, before: bool) {
    if parsed == [] then before
    else Dangles(parsed[1..], match parsed[0]
                              case Refused => before
                              case NotSerializable => true
                              case Payload(_) => false)
  }

  // ---- A dangling field name hides the end marker ----

  const MUTE: Provider<bool, string> := Provider(s => Some(s), (p, s) => (p, NotSerializable))

  // One event whose payload cannot be written, and the client finds one event with the
  // data "data: [DONE]", and no end marker.
  lemma DanglingFieldHidesEnd(line: string)
    requires Clean(line) && '\r' !in line && line != "[DONE]"
    ensures var out := Output(Carry(false, ""), [EventOf(line) + "\n\n"], MUTE);
            && out == "data: " + DONE
            && Events(out) == ([EventOf("data: [DONE]")], "")
            && Extract(EventOf("data: [DONE]")) == Some("data: [DONE]")
  {
    hide Extract, Events, Output;
    MuteOutput(line);
    EndIsOneEvent("data: ");
    assert "data: " + EventOf("[DONE]") == EventOf("data: [DONE]");
    ExtractUndoesFraming("data: [DONE]");
  }

  lemma MuteOutput(line: string)
    requires Clean(line) && '\r' !in line && line != "[DONE]"
    ensures Output(Carry(false, ""), [EventOf(line) + "\n\n"], MUTE) == "data: " + DONE
  {
    hide Extract, Events, Output, Normalize, TranslateAll, NormalizeEach;
    var text := EventOf(line) + "\n\n";
    NormalizePlain(text);
    NormalizeOneText(text);
    OneEvent(EventOf(line), "");
    assert text + "" == text;
    NoEvents();
    assert Events(text).0 == [EventOf(line)];
    MuteTranslates(line);
    OutputOfNormalized(Carry(false, ""), [text], MUTE);
    assert "" + text == text;
  }

  lemma MuteTranslates(line: string)
    requires Clean(line) && line != "[DONE]"
    ensures TranslateAll(false, [EventOf(line)], MUTE).1 == "data: "
  {
    hide Extract;
    ExtractUndoesFraming(line);
    assert Translate(false, EventOf(line), MUTE) == (false, "data: ");
    assert [EventOf(line)][1..] == [];
  }

  // ---- A cut pair can lose an event ----

  const ECHO: Provider<bool, string> := Provider(s => Some(s), (p, s) => (p, Payload(s)))

  lemma {:induction false} NormalizePlain(s: string)
    requires '\r' !in s
    ensures Normalize(s) == s
  {
    if s != "" {
      NormalizePlain(s[1..]);
    }
  }

  lemma EchoTranslates(line: string)
    requires Clean(line) && line != "[DONE]"
    ensures TranslateAll(false, [EventOf(line)], ECHO).1 == EventOf(line) + "\n\n"
  {
    hide Extract;
    ExtractUndoesFraming(line);
    assert Translate(false, EventOf(line), ECHO) == (false, EventOf(line) + "\n\n");
    assert [EventOf(line)][1..] == [];
  }

  // The same stream in one chunk, and cut within its last line end.
  lemma CutPairLosesEvent(line: string)
    requires Clean(line) && '\r' !in line && line != "[DONE]"
    ensures var text := EventOf(line) + "\r\n\r";
            && !NoCut([text, "\n"])
            && Flatten([text, "\n"]) == Flatten([text + "\n"])
            && Output(Carry(false, ""), [text + "\n"], ECHO) == EventOf(line) + "\n\n" + DONE
            && Output(Carry(false, ""), [text, "\n"], ECHO) == DONE
  {
    var text := EventOf(line) + "\r\n\r";
    assert '\r' !in EventOf(line);
    CutsTheLastPair(text);
    WholeOutput(line);
    CutOutput(line);
  }

  lemma CutsTheLastPair(text: string)
    requires text != "" && text[|text| - 1] == '\r'
    ensures !NoCut([text, "\n"])
    ensures Flatten([text, "\n"]) == Flatten([text + "\n"])
  {
    assert [text, "\n"][1..] == ["\n"] && ["\n"][1..] == [];
    assert Flatten(["\n"]) == "\n" + "" == "\n";
    assert [text + "\n"][1..] == [];
    assert (text + "\n") + "" == text + "\n";
  }

  lemma OutputOfText(chunks: seq<string>, text: string)
    requires chunks != [] && NormalizeEach(chunks) == text
    ensures Output(Carry(false, ""), chunks, ECHO) ==
            TranslateAll(false, Events(text).0, ECHO).1 + DONE
  {
    hide Output, TranslateAll, Events, NormalizeEach;
    OutputOfNormalized(Carry(false, ""), chunks, ECHO);
    assert "" + text == text;
  }

  lemma WholeOutput(line: string)
    requires Clean(line) && '\r' !in line && line != "[DONE]"
    ensures Output(Carry(false, ""), [EventOf(line) + "\r\n\r" + "\n"], ECHO) ==
            EventOf(line) + "\n\n" + DONE
  {
    hide Output, TranslateAll, Events, NormalizeEach;
    NormalizePlain(EventOf(line));
    WholeEnd(EventOf(line));
    OneEvent(EventOf(line), "");
    NoEvents();
    WithEmpty(EventOf(line) + "\n\n");
    WithEmpty([EventOf(line)]);
    EchoTranslates(line);
    OutputOfText([EventOf(line) + "\r\n\r" + "\n"], EventOf(line) + "\n\n");
  }

  lemma CutOutput(line: string)
    requires Clean(line) && '\r' !in line
    ensures Output(Carry(false, ""), [EventOf(line) + "\r\n\r", "\n"], ECHO) == DONE
  {
    hide Output, Events, NormalizeEach;
    NormalizePlain(EventOf(line));
    CutEnd(EventOf(line));
    OutputOfText([EventOf(line) + "\r\n\r", "\n"], EventOf(line) + "\n\r\n");
    assert "" + DONE == DONE;
  }

  lemma TwoLineEnds()
    ensures Normalize("\r\n\r\n") == "\n\n"
  {
    NormalizeStep("\r\n\r\n");
    assert "\r\n\r\n"[2..] == "\r\n" && "\r\n"[2..] == "";
    NormalizeStep("\r\n");
  }

  lemma WholeEnd(event: string)
    requires Normalize(event) == event && '\n' !in event && '\r' !in event
    ensures NormalizeEach([event + "\r\n\r" + "\n"]) == event + "\n\n"
  {
    hide Normalize;
    var text := event + "\r\n\r" + "\n";
    assert text == event + "\r\n\r\n";
    NormalizeConcat(event, "\r\n\r\n");
    TwoLineEnds();
    NormalizeOneText(text);
  }

  lemma CutEnd(event: string)
    requires Normalize(event) == event && '\n' !in event && '\r' !in event
    ensures NormalizeEach([event + "\r\n\r", "\n"]) == event + "\n\r\n"
    ensures Events(event + "\n\r\n").0 == []
  {
    hide Normalize, Events;
    var text := event + "\r\n\r";
    NormalizeConcat(event, "\r\n\r");
    CutLineEnds();
    assert [text, "\n"][1..] == ["\n"] && ["\n"][1..] == [];
    assert NormalizeEach(["\n"]) == Normalize("\n") + "";
    assert NormalizeEach([text, "\n"]) == (event + "\n\r") + "\n";
    NoBlankLine(event);
  }

  lemma CutLineEnds()
    ensures Normalize("\r\n\r") == "\n\r" && Normalize("\n") == "\n"
  {
    NormalizeStep("\r\n\r");
    assert "\r\n\r"[2..] == "\r" && Normalize("\r") == "\r";
  }

  lemma NoBlankLine(event: string)
    requires '\n' !in event
    ensures Events(event + "\n\r\n") == ([], event + "\n\r\n")
  {
    hide Events, Delimiter;
    var s := event + "\n\r\n";
    assert forall i | 0 <= i < |event| :: s[i] == event[i];
    assert s[|event|] == '\n' && s[|event| + 1] == '\r' && s[|event| + 2] == '\n';
    EventsStep(s);
  }
}
