// Masking of card numbers and ten-digit codes, in two passes over a text.
module PiiMask {
  import opened Sequences

  predicate Digit(c: char) {
    '0' <= c <= '9'
  }

  // \d{4}-\d{4}-\d{4}-(\d{4}) and \d{7}(\d{3})
  datatype Pattern = Card | Code

  function Width(p: Pattern): nat {
    if p.Card? then 19 else 10
  }

  // Offsets of the hyphens of a card number.
  predicate HyphenAt(p: Pattern, k: nat) {
    p.Card? && (k == 4 || k == 9 || k == 14)
  }

  // Offsets that are masked.
  predicate MaskedAt(p: Pattern, k: nat) {
    if p.Card? then k < 14 && !HyphenAt(p, k) else k < 7
  }

  predicate FitsAt(p: Pattern, s: string, i: nat, k: nat) {
    i + k < |s| && if HyphenAt(p, k) then s[i + k] == '-' else Digit(s[i + k])
  }

  predicate Matches(p: Pattern, s: string, i: nat) {
    i + Width(p) <= |s| && forall k: nat | k < Width(p) :: FitsAt(p, s, i, k)
  }

  // Four groups of four digits, parted by hyphens; or ten digits.
  predicate CardText(w: string) {
    && |w| == 19 && w[4] == w[9] == w[14] == '-'
    && forall k | 0 <= k < 19 && k != 4 && k != 9 && k != 14 :: '0' <= w[k] <= '9'
  }

  predicate CodeText(w: string) {
    |w| == 10 && forall k | 0 <= k < 10 :: '0' <= w[k] <= '9'
  }

  lemma MatchesAre(s: string, i: nat)
    ensures Matches(Card, s, i) <==> i + 19 <= |s| && CardText(s[i..i + 19])
    ensures Matches(Code, s, i) <==> i + 10 <= |s| && CodeText(s[i..i + 10])
  {
    if i + 19 <= |s| {
      var w := s[i..i + 19];
      if Matches(Card, s, i) {
        forall k: nat | k < 19
          ensures w[k] == s[i + k] && FitsAt(Card, s, i, k)
        {
        }
        assert FitsAt(Card, s, i, 4) && FitsAt(Card, s, i, 9) && FitsAt(Card, s, i, 14);
      }
      if CardText(w) {
        forall k: nat | k < 19
          ensures FitsAt(Card, s, i, k)
        {
          assert w[k] == s[i + k];
        }
      }
    }
    if i + 10 <= |s| {
      var w := s[i..i + 10];
      if Matches(Code, s, i) {
        forall k: nat | k < 10
          ensures w[k] == s[i + k] && FitsAt(Code, s, i, k)
        {
        }
      }
      if CodeText(w) {
        forall k: nat | k < 10
          ensures FitsAt(Code, s, i, k)
        {
          assert w[k] == s[i + k];
        }
      }
    }
  }

  // What a match is replaced by.
  function Replacement(p: Pattern, s: string, i: nat): (r: string)
    requires i + Width(p) <= |s|
    ensures |r| == Width(p)
  {
    if p.Card? then "XXXX-XXXX-XXXX-" + s[i + 15..i + 19] else "XXXXXXX" + s[i + 7..i + 10]
  }

  // s from i on, with every match replaced, from left to right without overlap.
  function Replaced(p: Pattern, s: string, i: nat): string
    decreases |s| - i
  {
    if i >= |s| then ""
    else if Matches(p, s, i) then Replacement(p, s, i) + Replaced(p, s, i + Width(p))
    else [s[i]] + Replaced(p, s, i + 1)
  }

  function Count(p: Pattern, s: string, i: nat): nat
    decreases |s| - i
  {
    if i >= |s| then 0
    else if Matches(p, s, i) then 1 + Count(p, s, i + Width(p))
    else Count(p, s, i + 1)
  }

  method GlobalReplace(p: Pattern, value: string) returns (result: string, count: nat)
    ensures result == Replaced(p, value, 0)
    ensures count == Count(p, value, 0)
  {
    result, count := "", 0;
    var i := 0;
    while i < |value|
      invariant result + Replaced(p, value, i) == Replaced(p, value, 0)
      invariant count + Count(p, value, i) == Count(p, value, 0)
      decreases |value| - i
    {
      hide Matches, Replacement;
      if Matches(p, value, i) {
        Associate(result, Replacement(p, value, i), Replaced(p, value, i + Width(p)));
        result := result + Replacement(p, value, i);
        count := count + 1;
        i := i + Width(p);
      } else {
        Associate(result, [value[i]], Replaced(p, value, i + 1));
        result := result + [value[i]];
        i := i + 1;
      }
    }
  }

  function Masked(value: string): string {
    Replaced(Code, Replaced(Card, value, 0), 0)
  }

  method MaskPII(value: string) returns (result: string, modified: bool)
    ensures result == Masked(value)
    ensures modified <==> result != value
    ensures |result| == |value|
  {
    modified := false;
    var count;
    result, count := GlobalReplace(Card, value);
    if count > 0 {
      modified := true;
    }
    ghost var cards := result;
    result, count := GlobalReplace(Code, result);
    if count > 0 {
      modified := true;
    }
    ReplacedMasks(Card, value, 0);
    ReplacedMasks(Code, cards, 0);
    CountsChanges(Card, value, 0);
    CountsChanges(Code, cards, 0);
    MaskingAddsUp(value, cards, result);
    assert value[0..] == value && cards[0..] == cards;
  }

  // ---- What masking does to a text ----

  // r is s but for digits that became X.
  predicate MasksOf(s: string, r: string) {
    |r| == |s| && forall k | 0 <= k < |s| :: r[k] == s[k] || (Digit(s[k]) && r[k] == 'X')
  }

  lemma ReplacementMasks(p: Pattern, s: string, i: nat)
    requires Matches(p, s, i)
    ensures var w, r := s[i..i + Width(p)], Replacement(p, s, i);
            MasksOf(w, r) && r != w && forall k: nat | k < |r| :: MaskedAt(p, k) <==> r[k] == 'X'
  {
    var w, r := s[i..i + Width(p)], Replacement(p, s, i);
    forall k: nat | k < Width(p)
      ensures FitsAt(p, s, i, k)
      ensures r[k] == if MaskedAt(p, k) then 'X' else w[k]
    {
      assert FitsAt(p, s, i, k);
    }
    assert FitsAt(p, s, i, 0) && MaskedAt(p, 0);
    forall k: nat | k < |r|
      ensures MaskedAt(p, k) <==> r[k] == 'X'
    {
      assert FitsAt(p, s, i, k);
    }
    forall k | 0 <= k < |w|
      ensures r[k] == w[k] || (Digit(w[k]) && r[k] == 'X')
    {
      assert FitsAt(p, s, i, k);
    }
  }

  lemma {:induction false} ReplacedMasks(p: Pattern, s: string, i: nat)
    requires i <= |s|
    ensures MasksOf(s[i..], Replaced(p, s, i))
    decreases |s| - i
  {
    hide Matches, Replacement, MaskedAt;
    if i < |s| {
      if Matches(p, s, i) {
        var n := MatchFits(p, s, i);
        ReplacementMasks(p, s, i);
        ReplacedMasks(p, s, i + n);
        MasksConcat(s[i..i + n], Replacement(p, s, i), s[i + n..], Replaced(p, s, i + n));
        assert s[i..i + n] + s[i + n..] == s[i..];
      } else {
        ReplacedMasks(p, s, i + 1);
        MasksConcat([s[i]], [s[i]], s[i + 1..], Replaced(p, s, i + 1));
        assert [s[i]] + s[i + 1..] == s[i..];
      }
    }
  }

  lemma MatchFits(p: Pattern, s: string, i: nat) returns (n: nat)
    requires Matches(p, s, i)
    ensures n == Width(p) && i + n <= |s|
  {
    n := Width(p);
  }

  lemma MasksConcat(s: string, r: string, t: string, q: string)
    requires MasksOf(s, r) && MasksOf(t, q)
    ensures MasksOf(s + t, r + q)
  {
  }

  lemma MaskingAddsUp(s: string, r: string, q: string)
    requires MasksOf(s, r) && MasksOf(r, q)
    ensures MasksOf(s, q)
    ensures q == s <==> r == s && q == r
  {
    if q == s {
      forall k | 0 <= k < |s|
        ensures r[k] == s[k]
      {
      }
    }
  }

  lemma {:induction false} CountsChanges(p: Pattern, s: string, i: nat)
    requires i <= |s|
    ensures Count(p, s, i) > 0 <==> Replaced(p, s, i) != s[i..]
    decreases |s| - i
  {
    hide Matches, Replacement, MaskedAt;
    if i < |s| {
      if Matches(p, s, i) {
        var n := MatchFits(p, s, i);
        ReplacementMasks(p, s, i);
        assert Replaced(p, s, i)[..n] == Replacement(p, s, i);
        assert s[i..][..n] == s[i..i + n];
      } else {
        CountsChanges(p, s, i + 1);
        assert s[i..] == [s[i]] + s[i + 1..];
        assert Replaced(p, s, i)[1..] == Replaced(p, s, i + 1);
      }
    }
  }

  // Length kept, every place unchanged or a digit turned X.
  lemma MaskedMasks(value: string)
    ensures MasksOf(value, Masked(value))
  {
    var cards := Replaced(Card, value, 0);
    ReplacedMasks(Card, value, 0);
    ReplacedMasks(Code, cards, 0);
    assert value[0..] == value && cards[0..] == cards;
    MaskingAddsUp(value, cards, Masked(value));
  }

  // ---- Runs of digits ----

  // Length of the run of digits that begins at i.
  function Run(s: string, i: nat): (n: nat)
    ensures i <= |s| ==> i + n <= |s|
    decreases |s| - i
  {
    if i < |s| && Digit(s[i]) then 1 + Run(s, i + 1) else 0
  }

  lemma {:induction false} RunDigits(s: string, i: nat, k: nat)
    requires i <= |s|
    ensures k < Run(s, i) ==> Digit(s[i + k])
    ensures i + Run(s, i) < |s| ==> !Digit(s[i + Run(s, i)])
    ensures k <= Run(s, i) ==> Run(s, i + k) == Run(s, i) - k
    decreases k, |s| - i
  {
    if i < |s| && Digit(s[i]) {
      RunDigits(s, i + 1, if k == 0 then 0 else k - 1);
    }
  }

  lemma {:induction false} RunAtLeast(s: string, i: nat, n: nat)
    requires i + n <= |s| && forall j | i <= j < i + n :: Digit(s[j])
    ensures Run(s, i) >= n
    decreases n
  {
    if n > 0 {
      RunAtLeast(s, i + 1, n - 1);
    }
  }

  // A code matches where at least ten digits follow.
  lemma CodeMatches(s: string, i: nat)
    requires i <= |s|
    ensures Matches(Code, s, i) <==> Run(s, i) >= 10
  {
    if Matches(Code, s, i) {
      forall j | i <= j < i + 10
        ensures Digit(s[j])
      {
        assert FitsAt(Code, s, i, j - i);
      }
      RunAtLeast(s, i, 10);
    }
    if Run(s, i) >= 10 {
      forall k: nat | k < 10
        ensures FitsAt(Code, s, i, k)
      {
        RunDigits(s, i, k);
      }
    }
  }

  function Max(a: nat, b: nat): nat {
    if a < b then b else a
  }

  // The longest run of digits.
  function LongestRun(s: string): nat {
    if s == "" then 0 else Max(Run(s, 0), LongestRun(s[1..]))
  }

  lemma {:induction false} RunShift(c: string, s: string, i: nat)
    ensures Run(c + s, |c| + i) == Run(s, i)
    decreases |s| - i
  {
    if i < |s| {
      RunShift(c, s, i + 1);
    }
  }

  // The digits at the front of the masked text.
  lemma {:induction false} LeadingRun(s: string, i: nat)
    requires i <= |s|
    ensures Run(Replaced(Code, s, i), 0) == if Run(s, i) >= 10 then 0 else Run(s, i)
    decreases |s| - i
  {
    hide Matches;
    CodeMatches(s, i);
    if Run(s, i) < 10 && i < |s| {
      LeadingRun(s, i + 1);
      RunShift([s[i]], Replaced(Code, s, i + 1), 0);
    }
  }

  // The longest run of a masked code and what follows it.
  lemma CodeThenRest(s: string, i: nat, rest: string)
    requires Matches(Code, s, i)
    ensures LongestRun(Replacement(Code, s, i) + rest) == Max(3 + Run(rest, 0), LongestRun(rest))
  {
    var kept := s[i + 7..i + 10];
    assert |kept| == 3 && forall k: nat | k < 3 :: Digit(kept[k]) by {
      forall k: nat | k < 3
        ensures Digit(kept[k])
      {
        assert FitsAt(Code, s, i, 7 + k);
      }
    }
    assert Replacement(Code, s, i) + rest == "XXXXXXX" + (kept + rest);
    SevenXs();
    MaskedPrefix(7, kept + rest);
    KeptPrefix(kept, rest);
  }

  function Xs(n: nat): string {
    if n == 0 then "" else ['X'] + Xs(n - 1)
  }

  lemma {:induction false} MaskedPrefix(n: nat, s: string)
    ensures LongestRun(Xs(n) + s) == LongestRun(s)
  {
    if n == 0 {
      WithEmpty(s);
    } else {
      hide LongestRun;
      MaskedPrefix(n - 1, s);
      Associate(['X'], Xs(n - 1), s);
      OneMore('X', Xs(n - 1) + s);
    }
  }

  lemma SevenXs()
    ensures Xs(7) == "XXXXXXX"
  {
    assert Xs(1) == ['X'] + Xs(0);
    assert Xs(3) == ['X'] + Xs(2) && Xs(2) == ['X'] + Xs(1);
    assert Xs(5) == ['X'] + Xs(4) && Xs(4) == ['X'] + Xs(3);
    assert Xs(7) == ['X'] + Xs(6) && Xs(6) == ['X'] + Xs(5);
  }

  lemma {:induction false} KeptPrefix(kept: string, rest: string)
    requires forall k: nat | k < |kept| :: Digit(kept[k])
    ensures Run(kept + rest, 0) == |kept| + Run(rest, 0)
    ensures kept != "" ==> LongestRun(kept + rest) == Max(|kept| + Run(rest, 0), LongestRun(rest))
  {
    hide Run, LongestRun;
    if kept == "" {
      assert kept + rest == rest;
    } else {
      var tail := kept[1..];
      KeptPrefix(tail, rest);
      assert kept + rest == [kept[0]] + (tail + rest);
      OneMore(kept[0], tail + rest);
      if tail == "" {
        assert tail + rest == rest;
      }
    }
  }

  lemma {:induction false} OneMore(c: char, s: string)
    ensures LongestRun([c] + s) == Max(Run([c] + s, 0), LongestRun(s))
    ensures Run([c] + s, 0) == if Digit(c) then 1 + Run(s, 0) else 0
  {
    RunShift([c], s, 0);
    assert ([c] + s)[1..] == s;
  }

  lemma {:induction false} RunsAreShort(s: string, i: nat)
    requires i <= |s|
    ensures LongestRun(Replaced(Code, s, i)) <= 12
    decreases |s| - i
  {
    hide Matches, Replacement;
    if i < |s| {
      LeadingRun(s, i);
      if Matches(Code, s, i) {
        var n := MatchFits(Code, s, i);
        RunsAreShort(s, i + n);
        LeadingRun(s, i + n);
        CodeThenRest(s, i, Replaced(Code, s, i + n));
      } else {
        RunsAreShort(s, i + 1);
        OneMore(s[i], Replaced(Code, s, i + 1));
      }
    }
  }

  // No text keeps a run of more than twelve digits.
  lemma MaskedRunsAreShort(value: string)
    ensures LongestRun(Masked(value)) <= 12
  {
    RunsAreShort(Replaced(Card, value, 0), 0);
  }

  // ---- Codes that survive ----

  // A run of this length is masked in tens, and what is left joins the last three
  // digits that were kept: 3 + n % 10 of them.
  predicate LeavesCode(n: nat) {
    n >= 10 && n % 10 >= 7
  }

  // Some maximal run of digits from i on has such a length.
  predicate HasLeavingRun(s: string, i: nat)
    decreases |s| - i
  {
    i < |s| && (LeavesCode(Run(s, i)) || HasLeavingRun(s, i + Max(1, Run(s, i))))
  }

  lemma {:induction false} CodeSurvivesFrom(s: string, i: nat)
    requires i <= |s|
    ensures LongestRun(Replaced(Code, s, i)) >= 10 <==> HasLeavingRun(s, i)
    decreases |s| - i
  {
    hide Matches, Replacement;
    if i < |s| {
      CodeMatches(s, i);
      LeadingRun(s, i);
      LeavingRunStep(s, i);
      if Matches(Code, s, i) {
        var n := MatchFits(Code, s, i);
        CodeSurvivesFrom(s, i + n);
        LeadingRun(s, i + n);
        CodeThenRest(s, i, Replaced(Code, s, i + n));
      } else {
        CodeSurvivesFrom(s, i + 1);
        OneMore(s[i], Replaced(Code, s, i + 1));
      }
    }
  }

  // Following the runs of digits at the pace of the replacement.
  lemma LeavingRunStep(s: string, i: nat)
    requires i < |s|
    ensures Run(s, i) < 10 ==> (HasLeavingRun(s, i) <==> HasLeavingRun(s, i + 1))
    ensures Run(s, i) >= 10 ==>
              (HasLeavingRun(s, i) <==> 7 <= Run(s, i + 10) < 10 || HasLeavingRun(s, i + 10))
  {
    if Run(s, i) < 10 {
      ShortRunStep(s, i);
    } else {
      LongRunStep(s, i);
    }
  }

  lemma ShortRunStep(s: string, i: nat)
    requires i < |s| && Run(s, i) < 10
    ensures HasLeavingRun(s, i) <==> HasLeavingRun(s, i + 1)
  {
    RunDigits(s, i, Run(s, i));
    RunDigits(s, i, 1);
  }

  lemma LongRunStep(s: string, i: nat)
    requires i < |s| && Run(s, i) >= 10
    ensures HasLeavingRun(s, i) <==> 7 <= Run(s, i + 10) < 10 || HasLeavingRun(s, i + 10)
  {
    hide Run, LeavesCode;
    var n := Run(s, i);
    RunDigits(s, i, 10);
    RunDigits(s, i, n);
    LeavesCodeStep(n);
    assert HasLeavingRun(s, i) <==> LeavesCode(n) || HasLeavingRun(s, i + n);
    if n > 10 {
      assert HasLeavingRun(s, i + 10) <==> LeavesCode(n - 10) || HasLeavingRun(s, i + n);
    }
  }

  lemma LeavesCodeStep(n: nat)
    requires n >= 10
    ensures LeavesCode(n) <==> 7 <= n - 10 < 10 || LeavesCode(n - 10)
    ensures !LeavesCode(0)
  {
  }

  // ---- Position by position ----

  // Where the matches begin that a pass takes.
  function Taken(p: Pattern, s: string, i: nat): seq<nat>
    decreases |s| - i
  {
    if i >= |s| then []
    else if Matches(p, s, i) then [i] + Taken(p, s, i + Width(p))
    else Taken(p, s, i + 1)
  }

  // Position j is one of the masked digits of such a match.
  predicate Hidden(p: Pattern, s: string, i: nat, j: nat) {
    exists q | q in Taken(p, s, i) :: q <= j < q + Width(p) && MaskedAt(p, j - q)
  }

  lemma {:induction false} TakenFrom(p: Pattern, s: string, i: nat)
    ensures forall q | q in Taken(p, s, i) :: i <= q
    decreases |s| - i
  {
    hide Matches;
    if i < |s| {
      TakenFrom(p, s, i + 1);
      TakenFrom(p, s, i + Width(p));
    }
  }

  lemma HiddenFirst(p: Pattern, s: string, i: nat, j: nat)
    requires i < |s| && Matches(p, s, i) && i <= j
    ensures Hidden(p, s, i, j) <==>
            if j < i + Width(p) then MaskedAt(p, j - i) else Hidden(p, s, i + Width(p), j)
  {
    hide Matches, MaskedAt;
    var rest := Taken(p, s, i + Width(p));
    assert Taken(p, s, i) == [i] + rest;
    TakenFrom(p, s, i + Width(p));
    assert i in Taken(p, s, i);
    assert forall q | q in rest :: q in Taken(p, s, i);
  }

  // A pass writes X over exactly the hidden positions.
  lemma {:induction false} ReplacedAt(p: Pattern, s: string, i: nat, j: nat)
    requires i <= j < |s|
    ensures |Replaced(p, s, i)| == |s| - i
    ensures Replaced(p, s, i)[j - i] == if Hidden(p, s, i, j) then 'X' else s[j]
    decreases |s| - i
  {
    hide Matches, Replacement, MaskedAt, Hidden;
    ReplacedMasks(p, s, i);
    if Matches(p, s, i) {
      var n := MatchFits(p, s, i);
      HiddenFirst(p, s, i, j);
      ReplacementAt(p, s, i);
      if j >= i + n {
        ReplacedAt(p, s, i + n, j);
      }
    } else {
      SameHidden(p, s, i, j);
      if j > i {
        ReplacedAt(p, s, i + 1, j);
      } else {
        NotHiddenBefore(p, s, i + 1, i);
      }
    }
  }

  lemma ReplacementAt(p: Pattern, s: string, i: nat)
    requires Matches(p, s, i)
    ensures forall k: nat | k < Width(p) ::
              Replacement(p, s, i)[k] == if MaskedAt(p, k) then 'X' else s[i + k]
  {
    ReplacementMasks(p, s, i);
  }

  lemma SameHidden(p: Pattern, s: string, i: nat, j: nat)
    requires i < |s| && !Matches(p, s, i)
    ensures Hidden(p, s, i, j) <==> Hidden(p, s, i + 1, j)
  {
    hide Matches, MaskedAt;
    assert Taken(p, s, i) == Taken(p, s, i + 1);
  }

  lemma NotHiddenBefore(p: Pattern, s: string, i: nat, j: nat)
    requires j < i
    ensures !Hidden(p, s, i, j)
  {
    TakenFrom(p, s, i);
  }

  // What fits the pattern in a masked text fitted it before.
  lemma MatchesUnmasked(p: Pattern, s: string, r: string, k: nat)
    requires MasksOf(s, r) && Matches(p, r, k)
    ensures Matches(p, s, k)
  {
    forall j: nat | j < Width(p)
      ensures FitsAt(p, s, k, j)
    {
      assert FitsAt(p, r, k, j);
    }
  }

  // A card number comes through a pass exactly if no digit of it is hidden.
  lemma CardSurvivesPass(p: Pattern, s: string, k: nat)
    ensures Matches(Card, Replaced(p, s, 0), k) <==>
            Matches(Card, s, k) && forall j | k <= j < k + 19 :: !Hidden(p, s, 0, j)
  {
    hide Hidden, Taken;
    var r := Replaced(p, s, 0);
    ReplacedMasks(p, s, 0);
    assert s[0..] == s;
    if k + 19 <= |s| {
      forall j | k <= j < k + 19
        ensures r[j] == if Hidden(p, s, 0, j) then 'X' else s[j]
      {
        ReplacedAt(p, s, 0, j);
      }
      if Matches(Card, r, k) {
        MatchesUnmasked(Card, s, r, k);
        forall j | k <= j < k + 19
          ensures !Hidden(p, s, 0, j)
        {
          assert FitsAt(Card, r, k, j - k);
        }
      }
      if Matches(Card, s, k) && forall j | k <= j < k + 19 :: !Hidden(p, s, 0, j) {
        forall j: nat | j < 19
          ensures FitsAt(Card, r, k, j)
        {
          assert FitsAt(Card, s, k, j) && !Hidden(p, s, 0, k + j);
        }
      }
    }
  }

  // ---- Headers and body ----

  // The headers are written back only if some value changed.
  method MaskHeaders(pairs: seq<(string, string)>) returns (headers: seq<(string, string)>, changed: bool)
    ensures |headers| == |pairs|
    ensures forall i | 0 <= i < |pairs| :: headers[i] == (pairs[i].0, Masked(pairs[i].1))
    ensures changed <==> headers != pairs
  {
    headers, changed := [], false;
    for i := 0 to |pairs|
      invariant |headers| == i
      invariant forall j | 0 <= j < i :: headers[j] == (pairs[j].0, Masked(pairs[j].1))
      invariant changed <==> exists j :: 0 <= j < i && headers[j] != pairs[j]
    {
      var value, modified := MaskPII(pairs[i].1);
      changed := modified || changed;
      headers := headers + [(pairs[i].0, value)];
      assert headers[i] == pairs[i] <==> !modified;
    }
  }

  // The body goes back with the length it had, and only if it changed.
  method MaskBody(body: string) returns (written: seq<string>)
    ensures written == if Masked(body) != body then [Masked(body)] else []
    ensures forall w | w in written :: |w| == |body|
  {
    var result, modified := MaskPII(body);
    written := if modified then [result] else [];
  }
}
