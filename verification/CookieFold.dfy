// What a sequence of SET and OVERWRITE operations leaves among the Set-Cookie values.
module CookieFold {
  import opened CookieManager
  import opened CookieText
  import opened Sequences
  import opened TextSearch
  import opened Wrappers

  // The cookie a Set-Cookie value is for.
  function CookieName(value: string): Option<string> {
    var s := StripLeft(value);
    var i := IndexOf(s, '=');
    if i == |s| then None else Some(s[..i])
  }

  predicate WellFormed(name: string) {
    '=' !in name && (name != "" ==> !IsSpace(name[0]))
  }

  // For a well-formed name the program's prefix test is exact.
  lemma TargetsIsExact(value: string, name: string)
    requires WellFormed(name)
    ensures Targets(value, name) <==> CookieName(value) == Some(name)
  {
    var s := StripLeft(value);
    if Targets(value, name) {
      NameOfPrefixed(s, name);
    }
    var i := IndexOf(s, '=');
    if i < |s| && s[..i] == name {
      assert s[..i + 1] == name + "=";
    }
  }

  lemma NameOfPrefixed(s: string, name: string)
    requires '=' !in name && StartsWith(s, name + "=")
    ensures IndexOf(s, '=') == |name| && s[..|name|] == name
  {
    var rest := s[|name| + 1..];
    assert s == (name + "=") + rest;
    assert s == name + ['='] + rest;
    IndexBehind(name, '=', rest);
  }

  // c adds a value for name n.
  predicate Sets(c: Config, n: string) {
    (c.operation.SetCookie? || c.operation.Overwrite?) && CookieName(Built(c)) == Some(n)
  }

  lemma BuiltHasName(c: Config)
    ensures StartsWith(Built(c), c.name + "=")
  {
    hide Domain, Attributes;
    var head := c.name + "=";
    HeadFirst(head, "; Path=" + c.path + "; Max-Age=0" + Domain(c));
    HeadFirst(head, c.value + "; Path=" + c.path + Domain(c) + Attributes(c));
  }

  lemma HeadFirst(head: string, rest: string)
    ensures StartsWith(head + rest, head)
  {
  }

  lemma BuiltIsForItsName(c: Config)
    requires WellFormed(c.name)
    ensures CookieName(Built(c)) == Some(c.name)
  {
    hide Built;
    BuiltHasName(c);
    assert StripLeft(Built(c)) == Built(c) by {
      assert Built(c)[0] == (c.name + "=")[0];
    }
    NameOfPrefixed(Built(c), c.name);
  }

  // A value that an operation removes is for the name that the operation sets.
  lemma RemovedIsSet(value: string, c: Config)
    requires Targets(value, c.name)
    ensures CookieName(value).Some? && CookieName(value) == CookieName(Built(c))
  {
    hide Built;
    var s, head := StripLeft(value), c.name + "=";
    BuiltHasName(c);
    StripLeftSuffix(value);
    assert s[0] == head[0] && Built(c)[0] == head[0];
    assert StripLeft(Built(c)) == Built(c);
    SameName(s, Built(c), head);
  }

  lemma ShorterPrefix(s: string, head: string, k: nat)
    requires StartsWith(s, head) && k <= |head|
    ensures |head| <= |s| && s[..k] == head[..k]
  {
    assert s[..k] == s[..|head|][..k];
  }

  // The name is settled by the first equals sign.
  lemma SameName(s: string, t: string, head: string)
    requires StartsWith(s, head) && StartsWith(t, head) && '=' in head
    ensures IndexOf(s, '=') == IndexOf(t, '=') < |head|
    ensures s[..IndexOf(s, '=')] == t[..IndexOf(t, '=')]
  {
    var i := IndexOf(head, '=');
    assert head[..|head|] == head;
    var name := head[..i];
    assert head[..i + 1] == name + "=";
    ShorterPrefix(s, head, i + 1);
    ShorterPrefix(t, head, i + 1);
    NameOfPrefixed(s, name);
    NameOfPrefixed(t, name);
  }

  // ---- Values for one name ----

  function ValuesFor(values: seq<string>, n: string): seq<string> {
    if values == [] then []
    else (if CookieName(values[0]) == Some(n) then [values[0]] else []) + ValuesFor(values[1..], n)
  }

  // The values that the operations set for n, in order.
  function SetsFor(configs: seq<Config>, n: string): seq<string> {
    if configs == [] then []
    else (if Sets(configs[0], n) then [Built(configs[0])] else []) + SetsFor(configs[1..], n)
  }

  lemma {:induction false} ValuesForConcat(a: seq<string>, b: seq<string>, n: string)
    ensures ValuesFor(a + b, n) == ValuesFor(a, n) + ValuesFor(b, n)
  {
    hide CookieName;
    if a == [] {
      WithEmpty(b);
    } else {
      ValuesForConcat(a[1..], b, n);
      TailOfConcat(a, b);
      Associate(if CookieName(a[0]) == Some(n) then [a[0]] else [], ValuesFor(a[1..], n), ValuesFor(b, n));
    }
  }

  // Removing one cookie leaves the values of another alone.
  lemma {:induction false} OthersStay(values: seq<string>, c: Config, n: string)
    requires CookieName(Built(c)) != Some(n)
    ensures ValuesFor(NotTargeting(values, c.name), n) == ValuesFor(values, n)
  {
    hide CookieName, Targets, Built;
    if values != [] {
      OthersStay(values[1..], c, n);
      var rest := NotTargeting(values[1..], c.name);
      if Targets(values[0], c.name) {
        RemovedIsSet(values[0], c);
        assert [] + rest == rest && [] + ValuesFor(rest, n) == ValuesFor(rest, n);
      } else {
        assert ([values[0]] + rest)[1..] == rest;
      }
    }
  }

  lemma {:induction false} NoneStays(values: seq<string>, n: string)
    requires WellFormed(n)
    ensures ValuesFor(NotTargeting(values, n), n) == []
  {
    hide CookieName, Targets;
    if values != [] {
      NoneStays(values[1..], n);
      TargetsIsExact(values[0], n);
      var rest := NotTargeting(values[1..], n);
      if Targets(values[0], n) {
        assert [] + rest == rest;
      } else {
        assert ([values[0]] + rest)[1..] == rest;
      }
    }
  }

  lemma ValuesForOne(value: string, n: string)
    ensures ValuesFor([value], n) == if CookieName(value) == Some(n) then [value] else []
  {
    hide CookieName;
    assert [value][1..] == [];
  }

  // One operation that does not overwrite n.
  lemma StepFor(values: seq<string>, c: Config, n: string)
    requires !(c.operation.Overwrite? && Sets(c, n))
    ensures ValuesFor(Step(values, c), n) ==
            ValuesFor(values, n) + if Sets(c, n) then [Built(c)] else []
  {
    hide CookieName, Targets, Built;
    ValuesForOne(Built(c), n);
    match c.operation
    case SetCookie => ValuesForConcat(values, [Built(c)], n);
    case Overwrite =>
      ValuesForConcat(NotTargeting(values, c.name), [Built(c)], n);
      OthersStay(values, c, n);
    case _ =>
  }

  // Operations that only set n add to the values it had.
  lemma {:induction false} SetsAccumulate(values: seq<string>, configs: seq<Config>, n: string)
    requires forall i | 0 <= i < |configs| :: !(configs[i].operation.Overwrite? && Sets(configs[i], n))
    ensures ValuesFor(Steps(values, configs), n) == ValuesFor(values, n) + SetsFor(configs, n)
    decreases |configs|
  {
    hide Sets, Step;
    if configs != [] {
      StepFor(values, configs[0], n);
      SetsAccumulate(Step(values, configs[0]), configs[1..], n);
      Associate(ValuesFor(values, n), if Sets(configs[0], n) then [Built(configs[0])] else [],
                SetsFor(configs[1..], n));
    }
  }

  lemma {:induction false} StepsConcat(values: seq<string>, a: seq<Config>, b: seq<Config>)
    ensures Steps(values, a + b) == Steps(Steps(values, a), b)
    decreases |a|
  {
    hide Step;
    if a == [] {
      WithEmpty(b);
    } else {
      StepsConcat(Step(values, a[0]), a[1..], b);
      TailOfConcat(a, b);
    }
  }

  // The last OVERWRITE of a name settles it: its own value first, then those that
  // later SETs add.
  lemma OverwriteSettles(values: seq<string>, before: seq<Config>, c: Config, after: seq<Config>)
    requires c.operation.Overwrite? && WellFormed(c.name)
    requires forall i | 0 <= i < |after| :: !(after[i].operation.Overwrite? && Sets(after[i], c.name))
    ensures ValuesFor(Steps(values, before + [c] + after), c.name) ==
            [Built(c)] + SetsFor(after, c.name)
  {
    hide CookieName, Built, Sets, Steps, Step, ValuesFor, SetsFor, WellFormed;
    StepsConcat(values, before + [c], after);
    StepsConcat(values, before, [c]);
    var earlier := Steps(values, before);
    OneStep(earlier, c);
    OverwriteLeavesOne(earlier, c);
    SetsAccumulate(Step(earlier, c), after, c.name);
  }

  lemma OneStep(values: seq<string>, c: Config)
    ensures Steps(values, [c]) == Step(values, c)
  {
    assert [c][1..] == [];
  }

  lemma OverwriteLeavesOne(values: seq<string>, c: Config)
    requires c.operation.Overwrite? && WellFormed(c.name)
    ensures ValuesFor(Step(values, c), c.name) == [Built(c)]
  {
    hide CookieName, Built, NotTargeting, ValuesFor, WellFormed;
    BuiltIsForItsName(c);
    ValuesForConcat(NotTargeting(values, c.name), [Built(c)], c.name);
    NoneStays(values, c.name);
    ValuesForOne(Built(c), c.name);
    WithEmpty([Built(c)]);
  }

  // If the last operation on a name is an OVERWRITE, exactly one value is for it: the
  // one that operation built.
  lemma LastOverwriteWins(values: seq<string>, before: seq<Config>, c: Config, after: seq<Config>)
    requires c.operation.Overwrite? && WellFormed(c.name)
    requires forall i | 0 <= i < |after| :: !Sets(after[i], c.name)
    ensures ValuesFor(Steps(values, before + [c] + after), c.name) == [Built(c)]
  {
    OverwriteSettles(values, before, c, after);
    NoSets(after, c.name);
  }

  lemma {:induction false} NoSets(configs: seq<Config>, n: string)
    requires forall i | 0 <= i < |configs| :: !Sets(configs[i], n)
    ensures SetsFor(configs, n) == []
  {
    hide Sets;
    if configs != [] {
      NoSets(configs[1..], n);
    }
  }

  // ---- Values that no operation is about ----

  ghost predicate Mentioned(value: string, configs: seq<Config>) {
    exists i :: 0 <= i < |configs| && CookieName(value).Some? && Sets(configs[i], CookieName(value).value)
  }

  // The values no operation is about, in order.
  ghost function Unmentioned(values: seq<string>, configs: seq<Config>): seq<string> {
    if values == [] then []
    else (if Mentioned(values[0], configs) then [] else [values[0]]) + Unmentioned(values[1..], configs)
  }

  lemma {:induction false} UnmentionedConcat(a: seq<string>, b: seq<string>, configs: seq<Config>)
    ensures Unmentioned(a + b, configs) == Unmentioned(a, configs) + Unmentioned(b, configs)
  {
    hide Mentioned;
    if a == [] {
      WithEmpty(b);
    } else {
      UnmentionedConcat(a[1..], b, configs);
      TailOfConcat(a, b);
      Associate(if Mentioned(a[0], configs) then [] else [a[0]], Unmentioned(a[1..], configs),
                Unmentioned(b, configs));
    }
  }

  lemma {:induction false} RemovalSparesUnmentioned(values: seq<string>, c: Config, configs: seq<Config>)
    requires c in configs && c.operation.Overwrite?
    ensures Unmentioned(NotTargeting(values, c.name), configs) == Unmentioned(values, configs)
  {
    hide Mentioned, CookieName, Targets, Built;
    if values != [] {
      RemovalSparesUnmentioned(values[1..], c, configs);
      var rest := NotTargeting(values[1..], c.name);
      if Targets(values[0], c.name) {
        RemovedIsMentioned(values[0], c, configs);
        assert [] + rest == rest && [] + Unmentioned(rest, configs) == Unmentioned(rest, configs);
      } else {
        assert ([values[0]] + rest)[1..] == rest;
      }
    }
  }

  lemma RemovedIsMentioned(value: string, c: Config, configs: seq<Config>)
    requires c in configs && c.operation.Overwrite? && Targets(value, c.name)
    ensures Mentioned(value, configs)
  {
    RemovedIsSet(value, c);
    var i :| 0 <= i < |configs| && configs[i] == c;
    assert Sets(configs[i], CookieName(value).value);
  }

  lemma BuiltIsMentioned(c: Config, configs: seq<Config>)
    requires c in configs && (c.operation.SetCookie? || c.operation.Overwrite?)
    ensures Unmentioned([Built(c)], configs) == []
  {
    hide Built;
    BuiltHasName(c);
    assert Built(c)[|c.name|] == (c.name + "=")[|c.name|];
    EqualsStays(Built(c));
    var i :| 0 <= i < |configs| && configs[i] == c;
    assert Sets(configs[i], CookieName(Built(c)).value);
    assert [Built(c)][1..] == [];
  }

  lemma {:induction false} EqualsStays(s: string)
    requires '=' in s
    ensures '=' in StripLeft(s) && CookieName(s).Some?
  {
    if IsSpace(s[0]) {
      EqualsStays(s[1..]);
    }
    var t := StripLeft(s);
    assert t[..|t|] == t;
  }

  lemma {:induction false} StepsSpare(values: seq<string>, some: seq<Config>, configs: seq<Config>)
    requires forall c | c in some :: c in configs
    ensures Unmentioned(Steps(values, some), configs) == Unmentioned(values, configs)
    decreases |some|
  {
    hide Mentioned, Built;
    if some != [] {
      var c := some[0];
      StepsSpare(Step(values, c), some[1..], configs);
      if c.operation.SetCookie? {
        BuiltIsMentioned(c, configs);
        UnmentionedConcat(values, [Built(c)], configs);
      } else if c.operation.Overwrite? {
        BuiltIsMentioned(c, configs);
        UnmentionedConcat(NotTargeting(values, c.name), [Built(c)], configs);
        RemovalSparesUnmentioned(values, c, configs);
      }
    }
  }

  // All values for names that no operation sets survive, in their order, and so do
  // values that name no cookie.
  lemma UnmentionedSurvive(values: seq<string>, configs: seq<Config>)
    ensures Unmentioned(Steps(values, configs), configs) == Unmentioned(values, configs)
  {
    StepsSpare(values, configs, configs);
  }
}
