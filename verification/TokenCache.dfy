// The token-exchange cache under concurrent requests: a lookup, a check of the expiry,
// an exchange and a store, each a step of its own, and evictions at any time.
module TokenCache {
  import opened Sequences
  import opened Wrappers

  const SAFETY_MARGIN := 60

  datatype Entry = Entry(token: string, expiry: int)

  // A token that an exchange has returned for a subject token.
  datatype Minted = Minted(subject: string, token: string, expiry: Option<int>)

  datatype Origin = Hit(expiry: int, checkedAt: int) | Fresh

  // Where a request is in its handling.
  datatype Request =
    | LookedUp(subject: string, cached: Option<Entry>)
    | Missed(subject: string)
    | Exchanged(subject: string, token: string, expiry: Option<int>)
    | Served(subject: string, token: string, origin: Origin)
    | Failed(subject: string)

  // hash gives the cache key of a subject token. minted is a record for the proofs.
  datatype State = State(
    hash: string -> string, cache: map<string, Entry>, requests: map<nat, Request>, minted: set<Minted>)

  datatype Action =
    | Lookup(id: nat, subject: string)
    | Check(id: nat, now: int)
    | Exchange(id: nat, token: string, expiry: Option<int>)
    | ExchangeFails(id: nat)
    | Store(id: nat)
    | Evict(key: string)

  predicate Enabled(s: State, a: Action) {
    match a
    case Lookup(id, _) => id !in s.requests
    case Check(id, _) => id in s.requests && s.requests[id].LookedUp?
    case Exchange(id, _, _) => id in s.requests && s.requests[id].Missed?
    case ExchangeFails(id) => id in s.requests && s.requests[id].Missed?
    case Store(id) => id in s.requests && s.requests[id].Exchanged?
    case Evict(_) => true
  }

  function Set(s: State, id: nat, r: Request): State {
    s.(requests := s.requests[id := r])
  }

  function Get(s: State, subject: string): Option<Entry> {
    var key := s.hash(subject);
    if key in s.cache then Some(s.cache[key]) else None
  }

  // An expiry of zero counts as unknown.
  predicate Known(expiry: Option<int>) {
    expiry.Some? && expiry.value != 0
  }

  function Step(s: State, a: Action): State
    requires Enabled(s, a)
  {
    match a
    case Lookup(id, subject) => Set(s, id, LookedUp(subject, Get(s, subject)))
    case Check(id, now) =>
      var LookedUp(subject, cached) := s.requests[id];
      if cached.Some? && cached.value.expiry - SAFETY_MARGIN > now
      then Set(s, id, Served(subject, cached.value.token, Hit(cached.value.expiry, now)))
      else Set(s, id, Missed(subject))
    case Exchange(id, token, expiry) =>
      var subject := s.requests[id].subject;
      Set(s, id, Exchanged(subject, token, expiry)).(minted := s.minted + {Minted(subject, token, expiry)})
    case ExchangeFails(id) => Set(s, id, Failed(s.requests[id].subject))
    case Store(id) =>
      var Exchanged(subject, token, expiry) := s.requests[id];
      var done := Set(s, id, Served(subject, token, Fresh));
      if Known(expiry) then done.(cache := s.cache[s.hash(subject) := Entry(token, expiry.value)]) else done
    case Evict(key) => s.(cache := s.cache - {key})
  }

  function Start(hash: string -> string): State {
    State(hash, map[], map[], {})
  }

  // The state after the actions of a run, in order; an action that is not enabled
  // cannot be part of it.
  predicate Runs(s: State, run: seq<Action>)
    decreases |run|
  {
    run != [] ==> Enabled(s, run[0]) && Runs(Step(s, run[0]), run[1..])
  }

  function After(s: State, run: seq<Action>): State
    requires Runs(s, run)
    decreases |run|
  {
    if run == [] then s else After(Step(s, run[0]), run[1..])
  }

  ghost predicate Injective(hash: string -> string) {
    forall a, b :: hash(a) == hash(b) ==> a == b
  }

  // An exchange of this subject token returned this token, with this expiry.
  predicate MintedAs(s: State, subject: string, e: Entry) {
    e.expiry != 0 && Minted(subject, e.token, Some(e.expiry)) in s.minted
  }

  ghost predicate CacheOk(s: State, key: string) {
    key in s.cache ==> exists subject :: s.hash(subject) == key && MintedAs(s, subject, s.cache[key])
  }

  ghost predicate RequestOk(s: State, r: Request) {
    match r
    case LookedUp(subject, cached) => cached.Some? ==> MintedAs(s, subject, cached.value)
    case Missed(_) => true
    case Exchanged(subject, token, expiry) => Minted(subject, token, expiry) in s.minted
    case Served(subject, token, origin) =>
      (match origin
       case Hit(expiry, at) => expiry - SAFETY_MARGIN > at && MintedAs(s, subject, Entry(token, expiry))
       case Fresh => exists expiry :: Minted(subject, token, expiry) in s.minted)
    case Failed(_) => true
  }

  ghost predicate Safe(s: State) {
    && (forall key :: CacheOk(s, key))
    && (forall id | id in s.requests :: RequestOk(s, s.requests[id]))
  }

  lemma RequestsStayOk(s: State, t: State, r: Request)
    requires RequestOk(s, r) && s.minted <= t.minted
    ensures RequestOk(t, r)
  {
  }

  lemma CacheStaysOk(s: State, t: State, key: string)
    requires CacheOk(s, key) && s.minted <= t.minted && s.hash == t.hash
    requires key in t.cache ==> key in s.cache && t.cache[key] == s.cache[key]
    ensures CacheOk(t, key)
  {
    if key in t.cache {
      var subject :| s.hash(subject) == key && MintedAs(s, subject, s.cache[key]);
      assert t.hash(subject) == key && MintedAs(t, subject, t.cache[key]);
    }
  }

  // The request that an action moves on is in order afterwards.
  lemma MovedRequestOk(s: State, a: Action)
    requires Enabled(s, a) && Injective(s.hash) && Safe(s) && !a.Evict?
    ensures a.id in Step(s, a).requests && RequestOk(Step(s, a), Step(s, a).requests[a.id])
  {
    match a
    case Lookup(id, subject) =>
      var key := s.hash(subject);
      assert CacheOk(s, key);
    case Store(id) =>
      assert RequestOk(s, s.requests[id]);
    case Check(id, _) =>
      assert RequestOk(s, s.requests[id]);
    case _ =>
  }

  lemma StepIsSafe(s: State, a: Action)
    requires Enabled(s, a) && Injective(s.hash) && Safe(s)
    ensures Safe(Step(s, a)) && Step(s, a).hash == s.hash
  {
    var t := Step(s, a);
    forall key
      ensures CacheOk(t, key)
    {
      assert CacheOk(s, key);
      if a.Store? && key == s.hash(s.requests[a.id].subject) && Known(s.requests[a.id].expiry) {
        assert RequestOk(s, s.requests[a.id]);
        assert MintedAs(t, s.requests[a.id].subject, t.cache[key]);
      } else {
        CacheStaysOk(s, t, key);
      }
    }
    forall id | id in t.requests
      ensures RequestOk(t, t.requests[id])
    {
      if !a.Evict? && id == a.id {
        MovedRequestOk(s, a);
      } else {
        assert t.requests[id] == s.requests[id];
        RequestsStayOk(s, t, s.requests[id]);
      }
    }
  }

  lemma {:induction false} RunIsSafe(s: State, run: seq<Action>)
    requires Runs(s, run) && Injective(s.hash) && Safe(s)
    ensures Safe(After(s, run))
    decreases |run|
  {
    if run != [] {
      StepIsSafe(s, run[0]);
      RunIsSafe(Step(s, run[0]), run[1..]);
    }
  }

  // Whatever the interleaving: a request is served a token that was minted for its own
  // subject token, and a token from the cache had more than 60 seconds left
  // when it was checked.
  lemma ServedTokensAreOwn(hash: string -> string, run: seq<Action>, id: nat)
    requires Injective(hash) && Runs(Start(hash), run)
    requires id in After(Start(hash), run).requests && After(Start(hash), run).requests[id].Served?
    ensures var s := After(Start(hash), run);
            var Served(subject, token, origin) := s.requests[id];
            && (exists expiry :: Minted(subject, token, expiry) in s.minted)
            && (origin.Hit? ==>
                  && origin.checkedAt + 60 < origin.expiry
                  && Minted(subject, token, Some(origin.expiry)) in s.minted)
  {
    RunIsSafe(Start(hash), run);
    var s := After(Start(hash), run);
    assert RequestOk(s, s.requests[id]);
  }

  // Nothing is cached but minted tokens, under the key of their subject token and
  // with the expiry they came with.
  lemma CachedTokensHaveExpiries(hash: string -> string, run: seq<Action>, key: string)
    requires Injective(hash) && Runs(Start(hash), run)
    requires key in After(Start(hash), run).cache
    ensures var s := After(Start(hash), run);
            exists subject :: hash(subject) == key && s.cache[key].expiry != 0 &&
              Minted(subject, s.cache[key].token, Some(s.cache[key].expiry)) in s.minted
  {
    RunIsSafe(Start(hash), run);
    HashKept(Start(hash), run);
    var s := After(Start(hash), run);
    assert CacheOk(s, key);
    var subject :| s.hash(subject) == key && MintedAs(s, subject, s.cache[key]);
    assert hash(subject) == key;
  }

  lemma {:induction false} HashKept(s: State, run: seq<Action>)
    requires Runs(s, run)
    ensures After(s, run).hash == s.hash
    decreases |run|
  {
    if run != [] {
      HashKept(Step(s, run[0]), run[1..]);
    }
  }

  // That the keys of two subject tokens differ is needed: with equal keys, one is
  // served the other's token.
  lemma CollidingKeysMixTokens(hash: string -> string, a: string, b: string, token: string, now: int)
    returns (run: seq<Action>)
    requires a != b && hash(a) == hash(b)
    ensures Runs(Start(hash), run)
    ensures var s := After(Start(hash), run);
            && 1 in s.requests
            && s.requests[1].Served? && s.requests[1].subject == b && s.requests[1].token == token
            && forall expiry :: Minted(b, token, expiry) !in s.minted
  {
    hide Runs, After;
    var expiry := if now + 61 == 0 then 1 else now + 61;
    var second := [Lookup(1, b), Check(1, now)];
    var first := FillsCache(hash, a, token, now, expiry);
    IsServedFromCache(After(Start(hash), first), b, token, now, expiry);
    RunsConcat(Start(hash), first, second);
    run := first + second;
  }

  lemma {:induction false} RunsConcat(s: State, r: seq<Action>, q: seq<Action>)
    requires Runs(s, r) && Runs(After(s, r), q)
    ensures Runs(s, r + q) && After(s, r + q) == After(After(s, r), q)
    decreases |r|
  {
    hide Step, Enabled;
    if r == [] {
      WithEmpty(q);
    } else {
      RunsConcat(Step(s, r[0]), r[1..], q);
      TailOfConcat(r, q);
    }
  }

  // One request misses, exchanges and stores.
  lemma FillsCache(hash: string -> string, a: string, token: string, now: int, expiry: int) returns (run: seq<Action>)
    requires expiry != 0
    ensures Runs(Start(hash), run)
    ensures var s := After(Start(hash), run);
            && s.hash == hash && hash(a) in s.cache && s.cache[hash(a)] == Entry(token, expiry)
            && s.minted == {Minted(a, token, Some(expiry))} && s.requests.Keys == {0}
  {
    run := [Lookup(0, a), Check(0, now), Exchange(0, token, Some(expiry)), Store(0)];
    var s0 := Start(hash);
    var s1, s2 := Step(s0, run[0]), Step(Step(s0, run[0]), run[1]);
    var s3 := Step(s2, run[2]);
    var s4 := Step(s3, run[3]);
    assert run[4..] == [];
    RunsStep(s3, run, 3);
    RunsStep(s2, run, 2);
    RunsStep(s1, run, 1);
    RunsStep(s0, run, 0);
    assert run[0..] == run;
  }

  // Another finds that entry under its own key.
  lemma IsServedFromCache(s: State, b: string, token: string, now: int, expiry: int)
    requires s.hash(b) in s.cache && s.cache[s.hash(b)] == Entry(token, expiry) && now + 60 < expiry
    requires 1 !in s.requests
    ensures var run := [Lookup(1, b), Check(1, now)];
            && Runs(s, run)
            && 1 in After(s, run).requests && After(s, run).requests[1] == Served(b, token, Hit(expiry, now))
            && After(s, run).minted == s.minted
  {
    CacheDecides(s, 1, b, now);
  }

  // A request is served from the cache exactly if there is an entry for its subject token
  // that has more than 60 seconds left.
  lemma CacheDecides(s: State, id: nat, subject: string, now: int)
    requires id !in s.requests
    ensures var run, key := [Lookup(id, subject), Check(id, now)], s.hash(subject);
            && Runs(s, run)
            && After(s, run) ==
               s.(requests := s.requests[id :=
                    if key in s.cache && now + 60 < s.cache[key].expiry
                    then Served(subject, s.cache[key].token, Hit(s.cache[key].expiry, now))
                    else Missed(subject)])
  {
    var run := [Lookup(id, subject), Check(id, now)];
    var s1 := Step(s, run[0]);
    assert run[2..] == [];
    RunsStep(s1, run, 1);
    RunsStep(s, run, 0);
    assert run[0..] == run;
  }

  // What is evicted is not served, and nothing else is forgotten.
  lemma EvictedIsMissed(s: State, id: nat, subject: string, now: int)
    requires id !in s.requests
    ensures var key := s.hash(subject);
            var run := [Evict(key), Lookup(id, subject), Check(id, now)];
            && Runs(s, run)
            && After(s, run) == s.(requests := s.requests[id := Missed(subject)], cache := s.cache - {key})
  {
    var key := s.hash(subject);
    var run := [Evict(key), Lookup(id, subject), Check(id, now)];
    CacheDecides(Step(s, run[0]), id, subject, now);
    assert run[1..] == [Lookup(id, subject), Check(id, now)];
    RunsStep(s, run, 0);
    assert run[0..] == run;
  }

  // A request that missed is served what the exchange returned; the token is cached, for
  // the subject token, exactly if its expiry is known.
  lemma ExchangeIsStored(s: State, id: nat, token: string, expiry: Option<int>)
    requires id in s.requests && s.requests[id].Missed?
    ensures var run, subject := [Exchange(id, token, expiry), Store(id)], s.requests[id].subject;
            && Runs(s, run)
            && After(s, run) ==
               s.(requests := s.requests[id := Served(subject, token, Fresh)],
                  minted := s.minted + {Minted(subject, token, expiry)},
                  cache := if expiry == None || expiry == Some(0) then s.cache
                           else s.cache[s.hash(subject) := Entry(token, expiry.value)])
  {
    var run := [Exchange(id, token, expiry), Store(id)];
    var s1 := Step(s, run[0]);
    assert run[2..] == [];
    RunsStep(s1, run, 1);
    RunsStep(s, run, 0);
    assert run[0..] == run;
  }

  lemma RunsStep(s: State, run: seq<Action>, i: nat)
    requires i < |run| && Enabled(s, run[i]) && Runs(Step(s, run[i]), run[i + 1..])
    ensures Runs(s, run[i..]) && After(s, run[i..]) == After(Step(s, run[i]), run[i + 1..])
  {
    assert run[i..][1..] == run[i + 1..];
  }
}
