// The cookie manager: deletions from the Cookie request header, and SET and OVERWRITE
// operations on the Set-Cookie response headers.
module CookieManager {
  import opened CookieText
  import opened Sequences
  import opened TextSearch
  import opened Wrappers

  datatype Operation = Unspecified | SetCookie | Delete | Overwrite

  datatype Config = Config(
    operation: Operation, name: string, value: string, path: string, domain: string,
    maxAge: int, httpOnly: bool, secure: bool, sameSiteStrict: bool)

  type Header = (string, string)

  // ---- Request: deletions ----

  function Without(cookies: seq<Cookie>, name: string): seq<Cookie> {
    if cookies == [] then []
    else (if cookies[0].0 == name then [] else [cookies[0]]) + Without(cookies[1..], name)
  }

  // The names of the DELETE operations.
  function Deleted(configs: seq<Config>): set<string> {
    if configs == [] then {}
    else (if configs[0].operation.Delete? then {configs[0].name} else {}) + Deleted(configs[1..])
  }

  // All deletions at once.
  function WithoutAll(cookies: seq<Cookie>, names: set<string>): seq<Cookie> {
    if cookies == [] then []
    else (if cookies[0].0 in names then [] else [cookies[0]]) + WithoutAll(cookies[1..], names)
  }

  lemma {:induction false} WithoutThenAll(cookies: seq<Cookie>, name: string, names: set<string>)
    ensures WithoutAll(Without(cookies, name), names) == WithoutAll(cookies, {name} + names)
  {
    if cookies != [] {
      WithoutThenAll(cookies[1..], name, names);
      var rest := Without(cookies[1..], name);
      if cookies[0].0 != name {
        assert ([cookies[0]] + rest)[1..] == rest;
      } else {
        assert [] + rest == rest;
      }
    }
  }

  lemma {:induction false} WithoutNone(cookies: seq<Cookie>)
    ensures WithoutAll(cookies, {}) == cookies
  {
    if cookies != [] {
      WithoutNone(cookies[1..]);
    }
  }

  lemma {:induction false} WithoutShortens(cookies: seq<Cookie>, names: set<string>)
    ensures |WithoutAll(cookies, names)| <= |cookies|
    ensures |WithoutAll(cookies, names)| == |cookies| <==> WithoutAll(cookies, names) == cookies
    ensures forall c | c in WithoutAll(cookies, names) :: c in cookies && c.0 !in names
  {
    if cookies != [] {
      WithoutShortens(cookies[1..], names);
    }
  }

  // std::erase_if and its count.
  method EraseNamed(cookies: seq<Cookie>, name: string) returns (kept: seq<Cookie>, removed: nat)
    ensures kept == Without(cookies, name)
    ensures removed == |cookies| - |kept|
  {
    kept, removed := [], 0;
    for i := 0 to |cookies|
      invariant kept + Without(cookies[i..], name) == Without(cookies, name)
      invariant removed == i - |kept|
    {
      assert cookies[i..][1..] == cookies[i + 1..];
      if cookies[i].0 == name {
        assert [] + Without(cookies[i + 1..], name) == Without(cookies[i + 1..], name);
        removed := removed + 1;
      } else {
        assert (kept + [cookies[i]]) + Without(cookies[i + 1..], name) ==
               kept + ([cookies[i]] + Without(cookies[i + 1..], name));
        kept := kept + [cookies[i]];
      }
    }
  }

  // The same in place, over the front of the backing array.
  method RemoveCookies(cookies: array<Cookie>, n: nat, name: string) returns (kept: nat, removed: nat)
    requires n <= cookies.Length
    modifies cookies
    ensures kept + removed == n
    ensures cookies[..kept] == Without(old(cookies[..n]), name)
    ensures cookies[n..] == old(cookies[n..])
  {
    hide Without;
    kept, removed := 0, 0;
    ghost var all, done := cookies[..n], [];
    WithoutStart(all, name);
    for i := 0 to n
      invariant kept + removed == i && |done| == kept
      invariant done + Without(all[i..], name) == Without(all, name)
      invariant forall j | 0 <= j < kept :: cookies[j] == done[j]
      invariant forall j | i <= j < n :: cookies[j] == all[j]
      invariant forall j | n <= j < cookies.Length :: cookies[j] == old(cookies[j])
    {
      WithoutStep(done, all, i, name);
      if cookies[i].0 == name {
        removed := removed + 1;
      } else {
        cookies[kept] := cookies[i];
        done := done + [all[i]];
        kept := kept + 1;
      }
    }
    WithoutEnd(done, all, name);
    assert cookies[..kept] == done;
    assert cookies[n..] == old(cookies[n..]);
  }

  lemma WithoutStart(all: seq<Cookie>, name: string)
    ensures [] + Without(all[0..], name) == Without(all, name)
  {
    assert all[0..] == all;
  }

  lemma WithoutStep(done: seq<Cookie>, all: seq<Cookie>, i: nat, name: string)
    requires i < |all| && done + Without(all[i..], name) == Without(all, name)
    ensures (if all[i].0 == name then done else done + [all[i]]) + Without(all[i + 1..], name) == Without(all, name)
  {
    var rest := Without(all[i + 1..], name);
    assert all[i..][1..] == all[i + 1..];
    WithEmpty(rest);
    Associate(done, [all[i]], rest);
  }

  lemma WithoutEnd(done: seq<Cookie>, all: seq<Cookie>, name: string)
    requires done + Without(all[|all|..], name) == Without(all, name)
    ensures done == Without(all, name)
  {
    assert all[|all|..] == [];
    WithEmpty(done);
  }

  // The names to delete that occur in the list.
  method NamesToDelete(cookies: seq<Cookie>, configs: seq<Config>) returns (names: seq<string>)
    ensures forall c | c in cookies :: c.0 in names <==> c.0 in Deleted(configs)
    ensures forall name | name in names :: exists c :: c in cookies && c.0 == name
  {
    names := [];
    for i := 0 to |configs|
      invariant forall name | name in names :: exists c :: c in cookies && c.0 == name
      invariant forall c | c in cookies :: c.0 in names <==> c.0 in Deleted(configs[..i])
    {
      DeletedSnoc(configs[..i], configs[i]);
      assert configs[..i + 1] == configs[..i] + [configs[i]];
      if configs[i].operation.Delete? && exists c :: c in cookies && c.0 == configs[i].name {
        if configs[i].name !in names {
          names := names + [configs[i].name];
        }
      }
    }
    assert configs[..|configs|] == configs;
  }

  // The deletions as a batch: one pass over the list.
  method DeleteInBatch(cookies: seq<Cookie>, configs: seq<Config>, header: Option<string>)
    returns (kept: seq<Cookie>, newHeader: Option<string>)
    ensures kept == WithoutAll(cookies, Deleted(configs))
    ensures newHeader == if kept == cookies then header else Written(kept)
  {
    hide Deleted, Written;
    var names := NamesToDelete(cookies, configs);
    if names == [] {
      NoneDeleted(cookies, Deleted(configs));
      return cookies, header;
    }
    kept := [];
    for i := 0 to |cookies|
      invariant kept + WithoutAll(cookies[i..], Deleted(configs)) == WithoutAll(cookies, Deleted(configs))
    {
      assert cookies[i] in cookies && cookies[i..][1..] == cookies[i + 1..];
      ghost var rest := WithoutAll(cookies[i + 1..], Deleted(configs));
      if cookies[i].0 !in names {
        Associate(kept, [cookies[i]], rest);
        kept := kept + [cookies[i]];
      } else {
        assert [] + rest == rest;
      }
    }
    SomeDeleted(cookies, Deleted(configs), names);
    newHeader := RebuiltHeader(kept);
  }

  lemma {:induction false} NoneDeleted(cookies: seq<Cookie>, names: set<string>)
    requires forall c | c in cookies :: c.0 !in names
    ensures WithoutAll(cookies, names) == cookies
  {
    if cookies != [] {
      NoneDeleted(cookies[1..], names);
    }
  }

  lemma SomeDeleted(cookies: seq<Cookie>, names: set<string>, found: seq<string>)
    requires found != [] && (forall name | name in found :: exists c :: c in cookies && c.0 == name)
    requires forall c | c in cookies :: c.0 in found <==> c.0 in names
    ensures WithoutAll(cookies, names) != cookies
  {
    assert found[0] in found;
    var c :| c in cookies && c.0 == found[0];
    WithoutShortens(cookies, names);
  }

  // Config by config over one backing array, of which the front part is the list.
  method DeleteInPlace(cookies: array<Cookie>, configs: seq<Config>, header: Option<string>)
    returns (n: nat, newHeader: Option<string>)
    modifies cookies
    ensures n <= cookies.Length && cookies[..n] == WithoutAll(old(cookies[..]), Deleted(configs))
    ensures newHeader == if cookies[..n] == old(cookies[..]) then header else Written(cookies[..n])
  {
    hide Written;
    n := cookies.Length;
    var modified := false;
    ghost var all := cookies[..];
    assert cookies[..n] == all && configs[0..] == configs;
    for i := 0 to |configs|
      invariant n <= cookies.Length
      invariant WithoutAll(cookies[..n], Deleted(configs[i..])) == WithoutAll(all, Deleted(configs))
      invariant modified <==> n < |all|
    {
      assert configs[i..][1..] == configs[i + 1..];
      if !configs[i].operation.Delete? {
        assert {} + Deleted(configs[i + 1..]) == Deleted(configs[i + 1..]);
        continue;
      }
      WithoutThenAll(cookies[..n], configs[i].name, Deleted(configs[i + 1..]));
      var kept, removed := RemoveCookies(cookies, n, configs[i].name);
      n := kept;
      if removed > 0 {
        modified := true;
      }
    }
    WithoutNone(cookies[..n]);
    WithoutShortens(all, Deleted(configs));
    newHeader := header;
    if modified {
      newHeader := RebuiltHeader(cookies[..n]);
    }
  }

  lemma {:induction false} DeletedSnoc(configs: seq<Config>, c: Config)
    ensures Deleted(configs + [c]) ==
            Deleted(configs) + if c.operation.Delete? then {c.name} else {}
  {
    if configs == [] {
      assert configs + [c] == [c];
    } else {
      DeletedSnoc(configs[1..], c);
      assert (configs + [c])[1..] == configs[1..] + [c];
    }
  }

  // Exactly the names of DELETE operations are deleted.
  lemma {:induction false} DeletedExactly(configs: seq<Config>, name: string)
    ensures name in Deleted(configs) <==> exists c :: c in configs && c.operation == Delete && c.name == name
  {
    if configs != [] {
      DeletedExactly(configs[1..], name);
      assert forall c :: c in configs <==> c == configs[0] || c in configs[1..];
    }
  }

  // Each cookie stays or goes by its own name, and the others keep their places.
  lemma {:induction false} EachByItsName(before: seq<Cookie>, c: Cookie, after: seq<Cookie>, names: set<string>)
    ensures WithoutAll(before + [c] + after, names) ==
            WithoutAll(before, names) + (if c.0 in names then [] else [c]) + WithoutAll(after, names)
  {
    var kept := if c.0 in names then [] else [c];
    if before == [] {
      WithEmpty([c]);
      TailOfCons(c, after);
      WithEmpty(kept);
      WithEmpty(WithoutAll(after, names));
    } else {
      EachByItsName(before[1..], c, after, names);
      TailOfConcat(before, [c]);
      TailOfConcat(before + [c], after);
      var first := if before[0].0 in names then [] else [before[0]];
      Associate(first, WithoutAll(before[1..], names), kept);
      Associate(first, WithoutAll(before[1..], names) + kept, WithoutAll(after, names));
    }
  }

  // The header that a list is written back as.
  function Written(cookies: seq<Cookie>): Option<string> {
    if cookies == [] then None else Some(Rebuild(cookies))
  }

  function ParseHeader(header: Option<string>): seq<Cookie> {
    match header case None => [] case Some(h) => Parse(h)
  }

  // What becomes of the request header.
  function HeaderAfter(header: Option<string>, configs: seq<Config>): Option<string> {
    var before := ParseHeader(header);
    var after := WithoutAll(before, Deleted(configs));
    if after == before then header else Written(after)
  }

  // The backend reads exactly the cookies that are not to be deleted, in order.
  lemma BackendReadsTheRest(header: Option<string>, configs: seq<Config>)
    ensures ParseHeader(HeaderAfter(header, configs)) ==
            WithoutAll(ParseHeader(header), Deleted(configs))
  {
    var before := ParseHeader(header);
    var after := WithoutAll(before, Deleted(configs));
    if after != before {
      ParsedIsParsable(if header.Some? then header.value else "");
      WithoutShortens(before, Deleted(configs));
      if after != [] {
        assert AllParsable(after) by {
          forall i | 0 <= i < |after|
            ensures Parsable(after[i])
          {
            assert after[i] in after;
            var j :| 0 <= j < |before| && before[j] == after[i];
          }
        }
        RoundTrip(after);
      }
    }
  }

  // Deleting again changes nothing.
  lemma DeletionIsIdempotent(header: Option<string>, configs: seq<Config>)
    ensures HeaderAfter(HeaderAfter(header, configs), configs) == HeaderAfter(header, configs)
  {
    BackendReadsTheRest(header, configs);
    WithoutTwice(ParseHeader(header), Deleted(configs));
  }

  lemma {:induction false} WithoutTwice(cookies: seq<Cookie>, names: set<string>)
    ensures WithoutAll(WithoutAll(cookies, names), names) == WithoutAll(cookies, names)
  {
    if cookies != [] {
      WithoutTwice(cookies[1..], names);
      var rest := WithoutAll(cookies[1..], names);
      if cookies[0].0 !in names {
        assert ([cookies[0]] + rest)[1..] == rest;
      } else {
        assert [] + rest == rest;
      }
    }
  }

  // ---- Response: SET and OVERWRITE ----

  function Decimal(n: nat): string {
    (if n < 10 then "" else Decimal(n / 10)) + [('0' as int + n % 10) as char]
  }

  function Domain(c: Config): string {
    if c.domain != "" then "; Domain=" + c.domain else ""
  }

  function Attributes(c: Config): string {
    (if c.maxAge > 0 then "; Max-Age=" + Decimal(c.maxAge) else "") +
    (if c.httpOnly then "; HttpOnly" else "") +
    (if c.secure then "; Secure" else "") +
    (if c.sameSiteStrict then "; SameSite=Strict" else "")
  }

  function SetValue(c: Config): string {
    (c.name + "=") + (c.value + "; Path=" + c.path + Domain(c) + Attributes(c))
  }

  function ExpiredValue(c: Config): string {
    (c.name + "=") + ("; Path=" + c.path + "; Max-Age=0" + Domain(c))
  }

  // The Set-Cookie value an operation adds.
  function Built(c: Config): string {
    if c.operation.Overwrite? && c.value == "" then ExpiredValue(c) else SetValue(c)
  }

  function LowerChar(c: char): char {
    if 'A' <= c <= 'Z' then (c as int + 32) as char else c
  }

  predicate EqualsIgnoreCase(a: string, b: string) {
    |a| == |b| && forall i | 0 <= i < |a| :: LowerChar(a[i]) == LowerChar(b[i])
  }

  predicate IsSetCookie(h: Header) {
    EqualsIgnoreCase(h.0, "Set-Cookie")
  }

  // The test of the program: value is a cookie of this name.
  predicate Targets(value: string, name: string) {
    StartsWith(StripLeft(value), name + "=")
  }

  // The values of the Set-Cookie headers, and all other headers, in order.
  function SetCookies(hs: seq<Header>): seq<string> {
    if hs == [] then []
    else (if IsSetCookie(hs[0]) then [hs[0].1] else []) + SetCookies(hs[1..])
  }

  function Others(hs: seq<Header>): seq<Header> {
    if hs == [] then []
    else (if IsSetCookie(hs[0]) then [] else [hs[0]]) + Others(hs[1..])
  }

  function NotTargeting(values: seq<string>, name: string): seq<string> {
    if values == [] then []
    else (if Targets(values[0], name) then [] else [values[0]]) + NotTargeting(values[1..], name)
  }

  // The Set-Cookie values after one operation.
  function Step(values: seq<string>, c: Config): seq<string> {
    match c.operation
    case SetCookie => values + [Built(c)]
    case Overwrite => NotTargeting(values, c.name) + [Built(c)]
    case _ => values
  }

  function Steps(values: seq<string>, configs: seq<Config>): seq<string>
    decreases |configs|
  {
    if configs == [] then values else Steps(Step(values, configs[0]), configs[1..])
  }

  // The name of the header, in letters of either case.
  lemma SetCookieInAnyCase(h: Header)
    ensures IsSetCookie(h) <==>
            |h.0| == 10 && forall i | 0 <= i < 10 :: h.0[i] == "set-cookie"[i] || h.0[i] == "SET-COOKIE"[i]
  {
    assert |"Set-Cookie"| == 10;
    if |h.0| == 10 {
      forall i | 0 <= i < 10
        ensures LowerChar(h.0[i]) == LowerChar("Set-Cookie"[i]) <==>
                h.0[i] == "set-cookie"[i] || h.0[i] == "SET-COOKIE"[i]
      {
        SameLetter(h.0[i], i);
      }
    }
  }

  lemma SameLetter(c: char, i: nat)
    requires i < 10
    ensures LowerChar(c) == LowerChar("Set-Cookie"[i]) <==> c == "set-cookie"[i] || c == "SET-COOKIE"[i]
  {
  }

  lemma {:induction false} SetCookiesConcat(a: seq<Header>, b: seq<Header>)
    ensures SetCookies(a + b) == SetCookies(a) + SetCookies(b)
  {
    hide IsSetCookie;
    if a == [] {
      WithEmpty(b);
    } else {
      SetCookiesConcat(a[1..], b);
      TailOfConcat(a, b);
      Associate(if IsSetCookie(a[0]) then [a[0].1] else [], SetCookies(a[1..]), SetCookies(b));
    }
  }

  lemma {:induction false} OthersConcat(a: seq<Header>, b: seq<Header>)
    ensures Others(a + b) == Others(a) + Others(b)
  {
    hide IsSetCookie;
    if a == [] {
      WithEmpty(b);
    } else {
      OthersConcat(a[1..], b);
      TailOfConcat(a, b);
      Associate(if IsSetCookie(a[0]) then [] else [a[0]], Others(a[1..]), Others(b));
    }
  }

  lemma AddedHeader(hs: seq<Header>, value: string)
    ensures SetCookies(hs + [("Set-Cookie", value)]) == SetCookies(hs) + [value]
    ensures Others(hs + [("Set-Cookie", value)]) == Others(hs)
  {
    var h := ("Set-Cookie", value);
    assert IsSetCookie(h);
    hide IsSetCookie;
    SetCookiesConcat(hs, [h]);
    OthersConcat(hs, [h]);
    assert [h][1..] == [];
    assert SetCookies([h]) == [value] + [] && Others([h]) == [] + [];
  }

  lemma {:induction false} OthersHoldNoCookies(hs: seq<Header>)
    ensures SetCookies(Others(hs)) == [] && Others(Others(hs)) == Others(hs)
  {
    hide IsSetCookie;
    if hs != [] {
      OthersHoldNoCookies(hs[1..]);
      var first := if IsSetCookie(hs[0]) then [] else [hs[0]];
      SetCookiesConcat(first, Others(hs[1..]));
      OthersConcat(first, Others(hs[1..]));
      assert [hs[0]][1..] == [];
    }
  }

  lemma {:induction false} NotTargetingConcat(a: seq<string>, b: seq<string>, name: string)
    ensures NotTargeting(a + b, name) == NotTargeting(a, name) + NotTargeting(b, name)
  {
    hide Targets;
    if a == [] {
      WithEmpty(b);
      WithEmpty(NotTargeting(b, name));
    } else {
      NotTargetingConcat(a[1..], b, name);
      TailOfConcat(a, b);
      Associate(if Targets(a[0], name) then [] else [a[0]], NotTargeting(a[1..], name), NotTargeting(b, name));
    }
  }

  class CookieManagerHttpContext {
    const configs: seq<Config>
    var requestCookies: seq<Cookie>
    // The host's headers: the Cookie request header and the response header list.
    var cookieHeader: Option<string>
    var responseHeaders: seq<Header>

    constructor (configs: seq<Config>, cookieHeader: Option<string>, responseHeaders: seq<Header>)
      ensures this.configs == configs && requestCookies == []
      ensures this.cookieHeader == cookieHeader && this.responseHeaders == responseHeaders
    {
      this.configs, this.cookieHeader, this.responseHeaders := configs, cookieHeader, responseHeaders;
      requestCookies := [];
    }

    method OnRequestHeaders()
      requires requestCookies == []
      modifies `requestCookies, `cookieHeader
      ensures requestCookies == WithoutAll(ParseHeader(old(cookieHeader)), Deleted(configs))
      ensures cookieHeader == HeaderAfter(old(cookieHeader), configs)
    {
      ParseRequestCookies();
      assert requestCookies == ParseHeader(cookieHeader);
      ProcessCookieDeletions();
    }

    method ParseRequestCookies()
      modifies `requestCookies
      ensures requestCookies == old(requestCookies) + ParseHeader(cookieHeader)
    {
      if cookieHeader.None? {
        return;
      }
      var pieces := Split(cookieHeader.value, ';');
      assert pieces[0..] == pieces;
      for i := 0 to |pieces|
        invariant requestCookies + ParsePieces(pieces[i..]) == old(requestCookies) + ParsePieces(pieces)
      {
        hide ParsePiece;
        assert pieces[i..][1..] == pieces[i + 1..];
        var parsed := ParsePair(pieces[i]);
        Associate(requestCookies, parsed, ParsePieces(pieces[i + 1..]));
        requestCookies := requestCookies + parsed;
      }
      assert requestCookies + [] == requestCookies;
    }

    method ParsePair(piece: string) returns (parsed: seq<Cookie>)
      ensures parsed == ParsePiece(piece)
    {
      hide Strip;
      parsed := [];
      var pair := Strip(piece);
      if pair == "" {
        return;
      }
      var eq := IndexOf(pair, '=');
      if eq < |pair| {
        parsed := [(Strip(pair[..eq]), Strip(pair[eq + 1..]))];
      }
    }

    method ProcessCookieDeletions()
      modifies `requestCookies, `cookieHeader
      ensures requestCookies == WithoutAll(old(requestCookies), Deleted(configs))
      ensures cookieHeader == if requestCookies == old(requestCookies) then old(cookieHeader)
                              else Written(requestCookies)
    {
      var modified := false;
      WithoutNone(requestCookies);
      for i := 0 to |configs|
        invariant requestCookies == WithoutAll(old(requestCookies), Deleted(configs[..i]))
        invariant modified <==> |requestCookies| < |old(requestCookies)|
        invariant |requestCookies| <= |old(requestCookies)|
        invariant cookieHeader == old(cookieHeader)
      {
        assert configs[..i + 1] == configs[..i] + [configs[i]];
        DeletedSnoc(configs[..i], configs[i]);
        assert Deleted(configs[..i]) + {} == Deleted(configs[..i]);
        if configs[i].operation.Delete? {
          var kept, removed := EraseNamed(requestCookies, configs[i].name);
          EraseOneMore(old(requestCookies), Deleted(configs[..i]), configs[i].name);
          requestCookies := kept;
          if removed > 0 {
            modified := true;
          }
        }
      }
      assert configs[..|configs|] == configs;
      WithoutShortens(old(requestCookies), Deleted(configs));
      if modified {
        RebuildCookieHeader();
      }
    }

    method RebuildCookieHeader()
      modifies `cookieHeader
      ensures cookieHeader == Written(requestCookies)
    {
      cookieHeader := RebuiltHeader(requestCookies);
    }

    method OnResponseHeaders()
      modifies `responseHeaders
      ensures SetCookies(responseHeaders) == Steps(SetCookies(old(responseHeaders)), configs)
      ensures Others(responseHeaders) == Others(old(responseHeaders))
    {
      for i := 0 to |configs|
        invariant Steps(SetCookies(responseHeaders), configs[i..]) ==
                  Steps(SetCookies(old(responseHeaders)), configs)
        invariant Others(responseHeaders) == Others(old(responseHeaders))
      {
        assert configs[i..][1..] == configs[i + 1..];
        if configs[i].operation.SetCookie? {
          Add(SetValue(configs[i]));
        } else if configs[i].operation.Overwrite? {
          OverwriteCookie(configs[i]);
        }
      }
    }

    method Add(value: string)
      modifies `responseHeaders
      ensures SetCookies(responseHeaders) == SetCookies(old(responseHeaders)) + [value]
      ensures Others(responseHeaders) == Others(old(responseHeaders))
    {
      AddedHeader(responseHeaders, value);
      responseHeaders := responseHeaders + [("Set-Cookie", value)];
    }

    // The interface can only clear a header by its name, so the values to keep are
    // added again.
    method RemoveExistingSetCookie(name: string)
      modifies `responseHeaders
      ensures SetCookies(responseHeaders) == NotTargeting(SetCookies(old(responseHeaders)), name)
      ensures Others(responseHeaders) == Others(old(responseHeaders))
    {
      hide SetCookies, Others, NotTargeting, IsSetCookie, Targets;
      var kept: seq<string> := [];
      var removed := false;
      var hs := responseHeaders;
      NoHeaders(hs, name);
      for i := 0 to |hs|
        invariant kept == NotTargeting(SetCookies(hs[..i]), name)
        invariant !removed ==> kept == SetCookies(hs[..i])
        invariant responseHeaders == hs
      {
        OneMoreHeader(hs, i, name);
        if IsSetCookie(hs[i]) {
          if Targets(hs[i].1, name) {
            removed := true;
          } else {
            kept := kept + [hs[i].1];
          }
        }
      }
      assert hs[..|hs|] == hs;
      if !removed {
        return;
      }
      OthersHoldNoCookies(hs);
      responseHeaders := Others(hs);
      for i := 0 to |kept|
        invariant SetCookies(responseHeaders) == kept[..i]
        invariant Others(responseHeaders) == Others(hs)
      {
        Add(kept[i]);
        assert kept[..i + 1] == kept[..i] + [kept[i]];
      }
      assert kept[..|kept|] == kept;
    }

    method OverwriteCookie(c: Config)
      requires c.operation.Overwrite?
      modifies `responseHeaders
      ensures SetCookies(responseHeaders) == Step(SetCookies(old(responseHeaders)), c)
      ensures Others(responseHeaders) == Others(old(responseHeaders))
    {
      RemoveExistingSetCookie(c.name);
      if c.value != "" {
        Add(SetValue(c));
      } else {
        Add(ExpiredValue(c));
      }
    }
  }

  lemma NoHeaders(hs: seq<Header>, name: string)
    ensures SetCookies(hs[..0]) == [] && NotTargeting(SetCookies(hs[..0]), name) == []
  {
  }

  lemma OneMoreHeader(hs: seq<Header>, i: nat, name: string)
    requires i < |hs|
    ensures var value := if IsSetCookie(hs[i]) then [hs[i].1] else [];
            && SetCookies(hs[..i + 1]) == SetCookies(hs[..i]) + value
            && NotTargeting(SetCookies(hs[..i + 1]), name) ==
               NotTargeting(SetCookies(hs[..i]), name) +
               (if IsSetCookie(hs[i]) && !Targets(hs[i].1, name) then [hs[i].1] else [])
  {
    hide IsSetCookie, Targets;
    assert hs[..i + 1] == hs[..i] + [hs[i]];
    SetCookiesConcat(hs[..i], [hs[i]]);
    assert [hs[i]][1..] == [];
    var value := if IsSetCookie(hs[i]) then [hs[i].1] else [];
    assert SetCookies([hs[i]]) == value + [];
    NotTargetingConcat(SetCookies(hs[..i]), value, name);
    assert [hs[i].1][1..] == [];
  }

  lemma {:induction false} EraseOneMore(cookies: seq<Cookie>, names: set<string>, name: string)
    ensures Without(WithoutAll(cookies, names), name) == WithoutAll(cookies, names + {name})
  {
    if cookies != [] {
      EraseOneMore(cookies[1..], names, name);
      var rest := WithoutAll(cookies[1..], names);
      if cookies[0].0 !in names {
        assert ([cookies[0]] + rest)[1..] == rest;
      } else {
        assert [] + rest == rest;
      }
    }
  }

  // The Cookie header for the cookies that are left, if any.
  method RebuiltHeader(cookies: seq<Cookie>) returns (header: Option<string>)
    ensures header == Written(cookies)
  {
    if cookies == [] {
      return None;
    }
    var remaining: seq<string> := [];
    for i := 0 to |cookies|
      invariant |remaining| == i
      invariant forall j | 0 <= j < i :: remaining[j] == Print(cookies[j])
    {
      remaining := remaining + [Print(cookies[i])];
    }
    assert remaining == Printed(cookies);
    header := Some(Join(remaining, "; "));
  }
}
