// CDN token generation: collect the URLs of a body, then sign them from the last to
// the first.
module CdnToken {
  import opened Sequences
  import opened Splice
  import opened TextSearch
  import opened Wrappers

  const MAX_BODY_SIZE := 1024 * 1024

  // ---- The pattern https?://[^\s"'<>]+ ----

  predicate UrlChar(c: char) {
    c !in {'\t', '\n', 12 as char, '\r', ' ', '\"', '\'', '<', '>'}
  }

  function SchemeLength(s: string, i: nat): nat {
    if OccursAt(s, "https://", i) then 8 else if OccursAt(s, "http://", i) then 7 else 0
  }

  function RunLength(s: string, i: nat): (n: nat)
    ensures i <= |s| ==> i + n <= |s|
    ensures forall j | i <= j < i + n :: j < |s| && UrlChar(s[j])
    ensures i + n < |s| ==> !UrlChar(s[i + n])
    decreases |s| - i
  {
    if i < |s| && UrlChar(s[i]) then 1 + RunLength(s, i + 1) else 0
  }

  // Length of the match at i, or 0.
  function MatchLength(s: string, i: nat): (n: nat)
    ensures n > 0 ==> i + n <= |s|
  {
    var scheme := SchemeLength(s, i);
    if scheme == 0 || RunLength(s, i + scheme) == 0 then 0 else scheme + RunLength(s, i + scheme)
  }

  datatype Match = Match(pos: nat, length: nat)

  function NextMatch(s: string, i: nat): (r: Option<nat>)
    ensures r.Some? ==> i <= r.value && MatchLength(s, r.value) > 0
    ensures r.Some? ==> forall j | i <= j < r.value :: MatchLength(s, j) == 0
    ensures r.None? ==> forall j | i <= j :: MatchLength(s, j) == 0
    decreases |s| - i
  {
    hide MatchLength;
    if i >= |s| then None
    else if MatchLength(s, i) > 0 then Some(i)
    else NextMatch(s, i + 1)
  }

  // Leftmost matches, each search starting behind the match before.
  function Matches(s: string, from: nat): seq<Match>
    decreases |s| - from
  {
    match NextMatch(s, from)
    case None => []
    case Some(p) => [Match(p, MatchLength(s, p))] + Matches(s, p + MatchLength(s, p))
  }

  method CollectMatches(s: string) returns (ms: seq<Match>)
    ensures ms == Matches(s, 0)
  {
    hide MatchLength, Matches;
    ms := [];
    var from := 0;
    var next := NextMatch(s, from);
    WithEmpty(Matches(s, 0));
    while next.Some?
      invariant next == NextMatch(s, from)
      invariant ms + Matches(s, from) == Matches(s, 0)
      decreases |s| - from, if next.Some? then 1 else 0
    {
      var m := Match(next.value, MatchLength(s, next.value));
      MatchesStep(s, from);
      Associate(ms, [m], Matches(s, m.pos + m.length));
      ms := ms + [m];
      from := m.pos + m.length;
      next := NextMatch(s, from);
    }
    MatchesStep(s, from);
    WithEmpty(ms);
  }

  lemma {:induction false} MatchesStep(s: string, from: nat)
    ensures match NextMatch(s, from)
            case None => Matches(s, from) == []
            case Some(p) => Matches(s, from) == [Match(p, MatchLength(s, p))] + Matches(s, p + MatchLength(s, p))
  {
    hide MatchLength, NextMatch;
  }

  predicate Within(j: nat, m: Match) {
    m.pos <= j < m.pos + m.length
  }

  // Every place where a URL begins lies in a collected match.
  lemma {:induction false} EveryUrlIsCovered(s: string, from: nat, j: nat) returns (m: Match)
    requires from <= j && MatchLength(s, j) > 0
    ensures m in Matches(s, from) && Within(j, m)
    decreases |s| - from
  {
    hide MatchLength;
    var p := NextMatch(s, from).value;
    m := Match(p, MatchLength(s, p));
    if p + m.length <= j {
      m := EveryUrlIsCovered(s, p + m.length, j);
    }
  }

  // ---- Signing ----

  // The token: the string to sign, which holds the URL's encoding and the time, and
  // its signature. i tells the calls apart, as the clock may.
  type Signer = (nat, string) -> string

  function TokenText(url: string, token: string): string {
    (if Contains(url, "?") then "&" else "?") + "Edge-Cache-Token=" + token
  }

  function SignedUrl(url: string, token: string): string {
    url + TokenText(url, token)
  }

  function UrlOf(s: string, m: Match): string
    requires m.pos + m.length <= |s|
  {
    s[m.pos..m.pos + m.length]
  }

  predicate MatchesOf(s: string, ms: seq<Match>) {
    forall i | 0 <= i < |ms| :: ms[i].length > 0 && ms[i].pos + ms[i].length <= |s|
  }

  // Replacing the matches from the one of index first on; n is the index of the last.
  function Replacements(s: string, ms: seq<Match>, first: nat, sign: Signer): seq<Edit<char>>
    requires MatchesOf(s, ms)
  {
    if ms == [] then []
    else
      var url := UrlOf(s, ms[0]);
      [Edit(ms[0].pos, ms[0].length, SignedUrl(url, sign(first, url)))] +
      Replacements(s, ms[1..], first + 1, sign)
  }

  // Inserting the tokens alone, behind the matches.
  function TokenInsertions(s: string, ms: seq<Match>, first: nat, sign: Signer): seq<Edit<char>>
    requires MatchesOf(s, ms)
  {
    if ms == [] then []
    else
      var url := UrlOf(s, ms[0]);
      [Edit(ms[0].pos + ms[0].length, 0, TokenText(url, sign(first, url)))] +
      TokenInsertions(s, ms[1..], first + 1, sign)
  }

  lemma {:induction false} MatchesInOrder(s: string, from: nat, first: nat, sign: Signer)
    requires from <= |s|
    ensures MatchesOf(s, Matches(s, from))
    ensures Ascending(s, Replacements(s, Matches(s, from), first, sign), from)
    decreases |s| - from
  {
    hide MatchLength, UrlOf, SignedUrl;
    var next := NextMatch(s, from);
    if next.Some? {
      var ms := Matches(s, from);
      var behind := next.value + MatchLength(s, next.value);
      MatchesInOrder(s, behind, first + 1, sign);
      assert ms[1..] == Matches(s, behind);
      assert MatchesOf(s, ms) by {
        forall i | 0 <= i < |ms|
          ensures ms[i].length > 0 && ms[i].pos + ms[i].length <= |s|
        {
          if i > 0 {
            assert ms[i] == ms[1..][i - 1];
          }
        }
      }
      var es := Replacements(s, ms, first, sign);
      assert es[1..] == Replacements(s, ms[1..], first + 1, sign);
    }
  }

  lemma {:induction false} ReplacementsExtend(s: string, ms: seq<Match>, first: nat, sign: Signer)
    requires MatchesOf(s, ms)
    ensures var es, ins := Replacements(s, ms, first, sign), TokenInsertions(s, ms, first, sign);
            |es| == |ms| && AllExtend(s, es, ins)
  {
    hide SignedUrl, Extends;
    if ms != [] {
      ReplacementsExtend(s, ms[1..], first + 1, sign);
      FirstExtends(s, ms, first, sign);
    }
  }

  lemma FirstExtends(s: string, ms: seq<Match>, first: nat, sign: Signer)
    requires MatchesOf(s, ms) && ms != []
    ensures Extends(s, Replacements(s, ms, first, sign)[0], TokenInsertions(s, ms, first, sign)[0])
  {
    hide TokenText;
  }

  // The body with the tokens inserted behind its URLs, and nothing else changed.
  function Signed(s: string, sign: Signer): string {
    MatchesInOrder(s, 0, 0, sign);
    var ms := Matches(s, 0);
    ReplacementsExtend(s, ms, 0, sign);
    ExtensionIsInsertion(s, Replacements(s, ms, 0, sign), TokenInsertions(s, ms, 0, sign), 0);
    Rewrite(s, TokenInsertions(s, ms, 0, sign), 0)
  }

  lemma {:induction false} ReplacementsFrom(s: string, ms: seq<Match>, first: nat, i: nat, sign: Signer)
    requires MatchesOf(s, ms) && i < |ms|
    ensures MatchesOf(s, ms[i..]) && MatchesOf(s, ms[i + 1..])
    ensures Replacements(s, ms[i..], first + i, sign) ==
            [Edit(ms[i].pos, ms[i].length, SignedUrl(UrlOf(s, ms[i]), sign(first + i, UrlOf(s, ms[i]))))] +
            Replacements(s, ms[i + 1..], first + i + 1, sign)
  {
    hide SignedUrl, UrlOf;
    assert ms[i..][1..] == ms[i + 1..];
  }

  lemma {:induction false} ReplacementsSuffix(s: string, ms: seq<Match>, first: nat, i: nat, sign: Signer)
    requires MatchesOf(s, ms) && i <= |ms|
    ensures MatchesOf(s, ms[i..])
    ensures |Replacements(s, ms, first, sign)| == |ms|
    ensures Replacements(s, ms[i..], first + i, sign) == Replacements(s, ms, first, sign)[i..]
  {
    hide SignedUrl, UrlOf;
    ReplacementsExtend(s, ms, first, sign);
    if i > 0 {
      ReplacementsSuffix(s, ms[1..], first + 1, i - 1, sign);
      assert ms[1..][i - 1..] == ms[i..];
    }
  }

  // The reverse replacement loop.
  method ReplaceAll(body: string, ms: seq<Match>, sign: Signer) returns (modified: string)
    requires ms == Matches(body, 0)
    ensures modified == Signed(body, sign)
  {
    hide SignedUrl, UrlOf, Matches, Rewrite, Ascending, ApplyOne;
    MatchesInOrder(body, 0, 0, sign);
    ghost var all := Replacements(body, ms, 0, sign);
    modified := body;
    var i := |ms|;
    assert ms[i..] == [];
    RewriteNothing(body);
    while i > 0
      invariant 0 <= i <= |ms|
      invariant MatchesOf(body, ms[i..])
      invariant Ascending(body, Replacements(body, ms[i..], i, sign), 0)
      invariant modified == Rewrite(body, Replacements(body, ms[i..], i, sign), 0)
    {
      i := i - 1;
      var m := ms[i];
      var signed := SignedUrl(UrlOf(body, m), sign(i, UrlOf(body, m)));
      ReplacementsFrom(body, ms, 0, i, sign);
      ReplacementsSuffix(body, ms, 0, i, sign);
      SuffixAscending(body, all, 0, i);
      RewriteStep(body, Edit(m.pos, m.length, signed), Replacements(body, ms[i + 1..], i + 1, sign));
      modified := ApplyOne(modified, Edit(m.pos, m.length, signed));
    }
    assert ms[0..] == ms;
    ReplacementsExtend(body, ms, 0, sign);
    ExtensionIsInsertion(body, all, TokenInsertions(body, ms, 0, sign), 0);
  }

  datatype DataStatus = Continue | StopIterationAndBuffer

  // written: what the plugin puts in the place of the buffered body, if anything.
  method OnResponseBody(buffered: Option<string>, length: nat, end: bool, sign: Signer)
    returns (status: DataStatus, written: Option<string>)
    ensures status == if end then Continue else StopIterationAndBuffer
    ensures written.Some? <==>
              end && length <= 1048576 && buffered.Some? && Matches(buffered.value, 0) != []
    ensures written.Some? ==> written.value == Signed(buffered.value, sign)
  {
    if !end {
      return StopIterationAndBuffer, None;
    }
    if length > MAX_BODY_SIZE {
      return Continue, None;
    }
    if buffered.None? {
      return Continue, None;
    }
    var body := buffered.value;
    if body == "" {
      assert NextMatch(body, 0).None?;
      return Continue, None;
    }
    var ms := CollectMatches(body);
    if ms == [] {
      return Continue, None;
    }
    var modified := ReplaceAll(body, ms, sign);
    return Continue, Some(modified);
  }

  // With no URL there is nothing to sign, so a body left alone is as good as signed.
  lemma NothingToSign(s: string, sign: Signer)
    requires Matches(s, 0) == []
    ensures Signed(s, sign) == s
  {
    assert s[0..] == s;
  }

  // ---- What a reader finds ----

  // The path ends at the first question mark, and ampersands part the query.
  function PathLength(url: string): (n: nat)
    ensures n <= |url| && '?' !in url[..n] && (n < |url| ==> url[n] == '?')
  {
    if url == "" || url[0] == '?' then 0 else 1 + PathLength(url[1..])
  }

  function Path(url: string): string {
    url[..PathLength(url)]
  }

  function Parameters(url: string): seq<string> {
    if PathLength(url) == |url| then [] else Split(url[PathLength(url) + 1..], '&')
  }

  lemma {:induction false} NoMarkInPath(url: string)
    ensures forall j | 0 <= j < PathLength(url) :: url[j] != '?'
  {
    if url != "" && url[0] != '?' {
      NoMarkInPath(url[1..]);
      assert forall j | 0 < j < |url| :: url[j] == url[1..][j - 1];
    }
  }

  lemma ContainsMark(url: string)
    ensures Contains(url, "?") <==> PathLength(url) < |url|
  {
    hide PathLength;
    NoMarkInPath(url);
    var n, found := PathLength(url), Find(url, "?");
    if n < |url| {
      assert OccursAt(url, "?", n);
    }
    if found.Some? {
      assert url[found.value..found.value + 1][0] == url[found.value];
    }
  }

  lemma {:induction false} PathLengthOf(path: string, rest: string)
    requires '?' !in path
    ensures PathLength(path + "?" + rest) == |path|
  {
    if path != "" {
      PathLengthOf(path[1..], rest);
      assert (path + "?" + rest)[1..] == path[1..] + "?" + rest && (path + "?" + rest)[0] == path[0];
    }
  }

  // The URL with one more parameter.
  predicate Extended(url: string, signed: string, token: string) {
    && url <= signed
    && Path(signed) == Path(url)
    && Parameters(signed) == Parameters(url) + ["Edge-Cache-Token=" + token]
  }

  // The path of a signed URL is that of the URL, and so are its parameters, in order, but
  // for the token, which comes last.
  lemma SignedUrlReadsBack(url: string, token: string)
    requires '&' !in token
    ensures Extended(url, SignedUrl(url, token), token)
  {
    hide Contains, PathLength, Split;
    var n, last := PathLength(url), "Edge-Cache-Token=" + token;
    var signed := SignedUrl(url, token);
    ContainsMark(url);
    SplitFirst(last, '&', "");
    if n < |url| {
      var query := url[n + 1..];
      assert signed == url[..n] + "?" + (query + ['&'] + last);
      PathLengthOf(url[..n], query + ['&'] + last);
      SplitConcat(query, '&', last);
      assert signed[n + 1..] == query + ['&'] + last;
    } else {
      assert url[..n] == url;
      assert signed == url + "?" + last;
      PathLengthOf(url, last);
      assert signed[n + 1..] == last;
    }
  }

  const ENDS := "\t\n\U{0C}\r \"'<>"

  lemma UrlCharsAre(c: char)
    ensures UrlChar(c) <==> c !in ENDS
  {
    assert ENDS == ['\t', '\n', 12 as char, '\r', ' ', '\"', '\'', '<', '>'];
  }

  // What the pattern means: one of two schemes, at least one character that is no white
  // space, quote or angle bracket, and as many more as there are.
  lemma MatchIsUrl(s: string, i: nat, scheme: string)
    requires scheme in {"http://", "https://"} && OccursAt(s, scheme, i)
    ensures var k, n := i + |scheme|, MatchLength(s, i);
            && (n > 0 <==> k < |s| && s[k] !in ENDS)
            && (n > 0 ==> |scheme| < n && i + n <= |s|)
            && (forall j | k <= j < i + n :: s[j] !in ENDS)
            && (n > 0 && i + n < |s| ==> s[i + n] in ENDS)
  {
    hide UrlChar;
    assert s[i..i + |scheme|][4] == scheme[4] == s[i + 4];
    if OccursAt(s, "https://", i) {
      assert s[i..i + 8][4] == s[i + 4];
    }
    forall c: char
      ensures UrlChar(c) <==> c !in ENDS
    {
      UrlCharsAre(c);
    }
  }

  lemma NoSchemeNoMatch(s: string, i: nat)
    requires !OccursAt(s, "http://", i) && !OccursAt(s, "https://", i)
    ensures MatchLength(s, i) == 0
  {
  }

  lemma {:induction false} SignedUrlAt(s: string, sign: Signer, i: nat) returns (o: nat)
    requires i < |Matches(s, 0)|
    ensures MatchesOf(s, Matches(s, 0))
    ensures var url := UrlOf(s, Matches(s, 0)[i]);
            OccursAt(Signed(s, sign), SignedUrl(url, sign(i, url)), o)
  {
    hide SignedUrl, UrlOf, Matches, Ascending, Rewrite, TextOffset;
    MatchesInOrder(s, 0, 0, sign);
    var ms := Matches(s, 0);
    var es := Replacements(s, ms, 0, sign);
    ReplacementsExtend(s, ms, 0, sign);
    ExtensionIsInsertion(s, es, TokenInsertions(s, ms, 0, sign), 0);
    ReplacementsSuffix(s, ms, 0, i, sign);
    ReplacementsFrom(s, ms, 0, i, sign);
    assert es[i] == es[i..][0];
    TextSurvives(s, es, 0, i);
    o := TextOffset(es, i);
  }

  // Every URL of the body stands in the signed body, with the token as its last parameter.
  lemma SignedUrlsSurvive(s: string, sign: Signer, i: nat) returns (o: nat, signed: string)
    requires i < |Matches(s, 0)|
    ensures MatchesOf(s, Matches(s, 0))
    ensures var url := UrlOf(s, Matches(s, 0)[i]);
            && OccursAt(Signed(s, sign), signed, o)
            && ('&' !in sign(i, url) ==> Extended(url, signed, sign(i, url)))
  {
    hide SignedUrl, UrlOf, Matches, Signed, Extended;
    o := SignedUrlAt(s, sign, i);
    var url := UrlOf(s, Matches(s, 0)[i]);
    signed := SignedUrl(url, sign(i, url));
    if '&' !in sign(i, url) {
      SignedUrlReadsBack(url, sign(i, url));
    }
  }
}
