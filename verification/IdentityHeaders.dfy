// The header mutation of the token-exchange callout, and what of it depends on the
// headers that the client sent.
module IdentityHeaders {
  import opened Sequences
  import opened Wrappers

  const AUTHORIZATION := "authorization"
  const AGENT_USER_AUTH := "x-goog-agent-user-authorization"
  const EMAIL := "x-goog-authenticated-user-email"
  const USER_ID := "x-goog-authenticated-user-id"
  const GROUPS := "x-original-user-groups"
  const IDENTITY_HEADERS := [EMAIL, USER_ID, GROUPS]

  datatype Mode = Inbound | Outbound

  datatype Groups = NoGroups | OneGroup(text: string) | GroupList(groups: seq<string>)

  // The claims the callout looks at; an empty string counts as missing.
  datatype Claims = Claims(
    email: Option<string>, preferredUsername: Option<string>, sub: Option<string>, groups: Groups)

  // What became of the bearer token.
  datatype Outcome = NoToken | ExchangeFailed(original: string) | Exchanged(original: string, token: string)

  datatype Response =
    | Reject(code: nat, details: string)
    | Mutate(overwrite: seq<(string, string)>, remove: seq<string>)

  datatype Callout = Callout(mode: Mode, failClosed: bool, decode: string -> Option<Claims>)

  function Truthy(s: Option<string>): Option<string> {
    if s.Some? && s.value != "" then s else None
  }

  function GroupsText(g: Groups): Option<string> {
    match g
    case NoGroups => None
    case OneGroup(text) => Truthy(Some(text))
    case GroupList(groups) => if groups == [] then None else Some(Join(groups, ","))
  }

  // The value of each identity header for a decoded token, if it has one.
  function Identity(claims: Option<Claims>, header: string): Option<string> {
    if claims.None? then None
    else if header == EMAIL then
      if Truthy(claims.value.email).Some? then claims.value.email
      else Truthy(claims.value.preferredUsername)
    else if header == USER_ID then Truthy(claims.value.sub)
    else if header == GROUPS then GroupsText(claims.value.groups)
    else None
  }

  // The identity headers that have a value, in order.
  function Present(claims: Option<Claims>, headers: seq<string>): seq<(string, string)> {
    if headers == [] then []
    else
      (match Identity(claims, headers[0]) case Some(v) => [(headers[0], v)] case None => []) +
      Present(claims, headers[1..])
  }

  function Absent(claims: Option<Claims>, headers: seq<string>): seq<string> {
    if headers == [] then []
    else
      (if Identity(claims, headers[0]).None? then [headers[0]] else []) +
      Absent(claims, headers[1..])
  }

  function NotExchanged(c: Callout, code: nat, details: string): Response {
    if c.failClosed then Reject(code, details)
    else if c.mode.Inbound? then Mutate([], IDENTITY_HEADERS + [AGENT_USER_AUTH])
    else Mutate([], [])
  }

  function BuildResponse(c: Callout, token: string, original: string): Response {
    var auth := [(AUTHORIZATION, "Bearer " + token)];
    if c.mode.Outbound? then Mutate(auth, [])
    else
      var claims := c.decode(original);
      Mutate(auth + [(AGENT_USER_AUTH, "Bearer " + original)] + Present(claims, IDENTITY_HEADERS),
             Absent(claims, IDENTITY_HEADERS))
  }

  function Respond(c: Callout, o: Outcome): Response {
    match o
    case NoToken => NotExchanged(c, 401, "missing_bearer_token")
    case ExchangeFailed(_) => NotExchanged(c, 403, "token_exchange_failed")
    case Exchanged(original, token) => BuildResponse(c, token, original)
  }

  // ---- The proxy applies the mutation ----

  type Headers = map<string, seq<string>>

  function Removed(h: Headers, remove: seq<string>): Headers {
    h - set k | k in remove
  }

  function Overwritten(h: Headers, overwrite: seq<(string, string)>): Headers
    decreases |overwrite|
  {
    if overwrite == [] then h
    else Overwritten(h[overwrite[0].0 := [overwrite[0].1]], overwrite[1..])
  }

  function Apply(h: Headers, r: Response): Headers
    requires r.Mutate?
  {
    Overwritten(Removed(h, r.remove), r.overwrite)
  }

  function Values(h: Headers, k: string): seq<string> {
    if k in h then h[k] else []
  }

  predicate Owned(k: string) {
    k in IDENTITY_HEADERS || k == AGENT_USER_AUTH
  }

  // What the backend must see in an owned header.
  function Expected(c: Callout, o: Outcome, k: string): seq<string> {
    if !o.Exchanged? then []
    else if k == AGENT_USER_AUTH then ["Bearer " + o.original]
    else match Identity(c.decode(o.original), k) case Some(v) => [v] case None => []
  }

  lemma DistinctNames()
    ensures |AUTHORIZATION| == 13 && |AGENT_USER_AUTH| == 31 && |EMAIL| == 31 && |USER_ID| == 28 && |GROUPS| == 22
    ensures AGENT_USER_AUTH[7] == 'a' && EMAIL[7] == 'a' && AGENT_USER_AUTH[8] == 'g' && EMAIL[8] == 'u'
    ensures AGENT_USER_AUTH != EMAIL
  {
    assert AGENT_USER_AUTH[8] == 'g' && EMAIL[8] == 'u';
  }

  // The last pair for a key decides its value.
  function LastFor(overwrite: seq<(string, string)>, k: string): Option<string> {
    if overwrite == [] then None
    else
      var later := LastFor(overwrite[1..], k);
      if later.Some? then later
      else if overwrite[0].0 == k then Some(overwrite[0].1) else None
  }

  lemma {:induction false} OverwrittenValue(h: Headers, overwrite: seq<(string, string)>, k: string)
    ensures Values(Overwritten(h, overwrite), k) ==
            match LastFor(overwrite, k) case Some(v) => [v] case None => Values(h, k)
    decreases |overwrite|
  {
    if overwrite != [] {
      OverwrittenValue(h[overwrite[0].0 := [overwrite[0].1]], overwrite[1..], k);
    }
  }

  lemma {:induction false} LastForConcat(a: seq<(string, string)>, b: seq<(string, string)>, k: string)
    ensures LastFor(a + b, k) == if LastFor(b, k).Some? then LastFor(b, k) else LastFor(a, k)
  {
    if a == [] {
      WithEmpty(b);
    } else {
      LastForConcat(a[1..], b, k);
      TailOfConcat(a, b);
    }
  }

  lemma {:induction false} LastPresent(claims: Option<Claims>, headers: seq<string>, k: string)
    ensures LastFor(Present(claims, headers), k) == if k in headers then Identity(claims, k) else None
    ensures k in Absent(claims, headers) <==> k in headers && Identity(claims, k).None?
  {
    hide Identity;
    if headers != [] {
      LastPresent(claims, headers[1..], k);
      var rest := Present(claims, headers[1..]);
      match Identity(claims, headers[0]) {
        case Some(v) =>
          assert ([(headers[0], v)] + rest)[1..] == rest;
        case None =>
          assert [] + rest == rest;
      }
    }
  }

  lemma RemovedValues(h: Headers, remove: seq<string>, k: string)
    ensures Values(Removed(h, remove), k) == if k in remove then [] else Values(h, k)
  {
  }

  // On every forwarded path in inbound mode the owned headers are what the token's
  // outcome says, whatever the client sent.
  lemma OwnedHeadersAreExpected(c: Callout, o: Outcome, h: Headers, k: string)
    requires c.mode.Inbound? && Owned(k) && Respond(c, o).Mutate?
    ensures Values(Apply(h, Respond(c, o)), k) == Expected(c, o, k)
  {
    hide Identity;
    var r := Respond(c, o);
    RemovedValues(h, r.remove, k);
    OverwrittenValue(Removed(h, r.remove), r.overwrite, k);
    if o.Exchanged? {
      var claims := c.decode(o.original);
      var auth, agent := [(AUTHORIZATION, "Bearer " + o.token)], [(AGENT_USER_AUTH, "Bearer " + o.original)];
      LastForConcat(auth + agent, Present(claims, IDENTITY_HEADERS), k);
      LastForConcat(auth, agent, k);
      LastPresent(claims, IDENTITY_HEADERS, k);
      assert auth[1..] == [] && agent[1..] == [];
      OwnedIsNotAuthorization(k);
    }
  }

  lemma OwnedIsNotAuthorization(k: string)
    requires Owned(k)
    ensures k != AUTHORIZATION && (k in IDENTITY_HEADERS <==> k != AGENT_USER_AUTH)
  {
    DistinctNames();
  }

  // So two clients that differ in nothing but their headers look the same to the backend.
  lemma OwnedHeadersIgnoreTheClient(c: Callout, o: Outcome, h1: Headers, h2: Headers, k: string)
    requires c.mode.Inbound? && Owned(k) && Respond(c, o).Mutate?
    ensures Values(Apply(h1, Respond(c, o)), k) == Values(Apply(h2, Respond(c, o)), k)
  {
    OwnedHeadersAreExpected(c, o, h1, k);
    OwnedHeadersAreExpected(c, o, h2, k);
  }

  // An identity header reaches the backend only on a request whose token was
  // exchanged, and a rejected request is one that was not, in fail-closed mode.
  lemma IdentityMeansExchanged(c: Callout, o: Outcome, h: Headers, k: string)
    ensures Respond(c, o).Reject? <==> c.failClosed && !o.Exchanged?
    ensures (c.mode.Inbound? && Owned(k) && Respond(c, o).Mutate? && Values(Apply(h, Respond(c, o)), k) != [])
            ==> o.Exchanged?
  {
    if c.mode.Inbound? && Owned(k) && Respond(c, o).Mutate? {
      OwnedHeadersAreExpected(c, o, h, k);
    }
  }

  // Headers the callout does not own pass as they were, but for the exchanged token.
  lemma OtherHeadersPass(c: Callout, o: Outcome, h: Headers, k: string)
    requires Respond(c, o).Mutate? && k != AUTHORIZATION && (c.mode.Inbound? ==> !Owned(k))
    ensures Values(Apply(h, Respond(c, o)), k) == Values(h, k)
  {
    hide Identity;
    var r := Respond(c, o);
    RemovedValues(h, r.remove, k);
    OverwrittenValue(Removed(h, r.remove), r.overwrite, k);
    if o.Exchanged? {
      var auth, agent := [(AUTHORIZATION, "Bearer " + o.token)], [(AGENT_USER_AUTH, "Bearer " + o.original)];
      assert auth[1..] == [] && agent[1..] == [];
      if c.mode.Inbound? {
        var claims := c.decode(o.original);
        LastForConcat(auth + agent, Present(claims, IDENTITY_HEADERS), k);
        LastForConcat(auth, agent, k);
        LastPresent(claims, IDENTITY_HEADERS, k);
      }
    }
  }

  // ---- The values themselves ----

  // The exchanged token is what the backend is authorized with; without an exchange, the
  // client's header stays, or the request is rejected with the reason.
  lemma AuthorizationIsExchanged(c: Callout, o: Outcome, h: Headers)
    ensures o.Exchanged? ==>
              Respond(c, o).Mutate? && Values(Apply(h, Respond(c, o)), "authorization") == ["Bearer " + o.token]
    ensures !o.Exchanged? && !c.failClosed ==>
              Respond(c, o).Mutate? && Values(Apply(h, Respond(c, o)), "authorization") == Values(h, "authorization")
    ensures o.NoToken? && c.failClosed ==> Respond(c, o) == Reject(401, "missing_bearer_token")
    ensures o.ExchangeFailed? && c.failClosed ==> Respond(c, o) == Reject(403, "token_exchange_failed")
  {
    hide Identity;
    DistinctNames();
    var r, k := Respond(c, o), "authorization";
    if r.Mutate? {
      RemovedValues(h, r.remove, k);
      OverwrittenValue(Removed(h, r.remove), r.overwrite, k);
      if o.Exchanged? {
        var auth, agent := [(AUTHORIZATION, "Bearer " + o.token)], [(AGENT_USER_AUTH, "Bearer " + o.original)];
        assert auth[1..] == [] && agent[1..] == [];
        if c.mode.Inbound? {
          var claims := c.decode(o.original);
          LastForConcat(auth + agent, Present(claims, IDENTITY_HEADERS), k);
          LastForConcat(auth, agent, k);
          LastPresent(claims, IDENTITY_HEADERS, k);
        }
      }
    }
  }

  function NonEmpty(s: Option<string>): seq<string> {
    if s.Some? && s.value != "" then [s.value] else []
  }

  // What the backend reads of an exchanged token: the original token, the email or else
  // the preferred user name, the subject, and the groups, parted by commas.
  lemma IdentityIsTheTokens(c: Callout, original: string, token: string, h: Headers)
    requires c.mode.Inbound?
    ensures var r, decoded := Respond(c, Exchanged(original, token)), c.decode(original);
            r.Mutate? && (
              var after := Apply(h, r);
              && Values(after, "x-goog-agent-user-authorization") == ["Bearer " + original]
              && (decoded.None? ==>
                    && Values(after, "x-goog-authenticated-user-email") == []
                    && Values(after, "x-goog-authenticated-user-id") == []
                    && Values(after, "x-original-user-groups") == [])
              && (decoded.Some? ==>
                    var Claims(email, preferred, sub, groups) := decoded.value;
                    && Values(after, "x-goog-authenticated-user-email") ==
                       (if NonEmpty(email) != [] then NonEmpty(email) else NonEmpty(preferred))
                    && Values(after, "x-goog-authenticated-user-id") == NonEmpty(sub)
                    && ReadGroups(Values(after, "x-original-user-groups"), groups)))
  {
    var o := Exchanged(original, token);
    IdentityNames();
    OwnedHeadersAreExpected(c, o, h, AGENT_USER_AUTH);
    OwnedHeadersAreExpected(c, o, h, EMAIL);
    OwnedHeadersAreExpected(c, o, h, USER_ID);
    OwnedHeadersAreExpected(c, o, h, GROUPS);
    if c.decode(original).Some? && c.decode(original).value.groups.GroupList? {
      GroupsReadBack(c.decode(original).value.groups.groups);
    }
  }

  lemma IdentityNames()
    ensures EMAIL != USER_ID && EMAIL != GROUPS && USER_ID != GROUPS
    ensures AGENT_USER_AUTH !in IDENTITY_HEADERS
  {
    DistinctNames();
  }

  // A reader finds the groups, if none holds a comma.
  predicate ReadGroups(values: seq<string>, groups: Groups) {
    match groups
    case NoGroups => values == []
    case OneGroup(text) => values == if text == "" then [] else [text]
    case GroupList(gs) =>
      if gs == [] then values == []
      else |values| == 1 && ((forall g | g in gs :: ',' !in g) ==> Split(values[0], ',') == gs)
  }

  lemma GroupsReadBack(groups: seq<string>)
    ensures groups != [] && (forall g | g in groups :: ',' !in g) ==> Split(Join(groups, ","), ',') == groups
  {
    if groups != [] && forall g | g in groups :: ',' !in g {
      SplitJoined(groups, ',');
    }
  }
}
