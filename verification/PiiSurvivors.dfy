// Exactly which codes and card numbers the two masking passes leave, as conditions on
// the text that goes in.
module PiiSurvivors {
  import opened PiiMask

  // ---- The cards that the first pass takes ----

  // What a card number looks like.
  lemma CardShape(s: string, q: nat)
    requires Matches(Card, s, q)
    ensures q + 19 <= |s| && s[q + 4] == s[q + 9] == s[q + 14] == '-'
    ensures forall j | q <= j < q + 19 && j != q + 4 && j != q + 9 && j != q + 14 :: Digit(s[j])
  {
    assert FitsAt(Card, s, q, 4) && FitsAt(Card, s, q, 9) && FitsAt(Card, s, q, 14);
    forall j | q <= j < q + 19 && j != q + 4 && j != q + 9 && j != q + 14
      ensures Digit(s[j])
    {
      assert FitsAt(Card, s, q, j - q);
    }
  }

  // Two cards overlap in whole groups, or in the last group of the first.
  lemma CardsOverlapInGroups(s: string, q: nat, k: nat)
    requires Matches(Card, s, q) && Matches(Card, s, k) && q < k < q + 19
    ensures k == q + 5 || k == q + 10 || q + 15 <= k
  {
    hide Matches;
    CardShape(s, q);
    CardShape(s, k);
  }

  lemma {:induction false} TakenMatches(p: Pattern, s: string, i: nat, q: nat)
    requires q in Taken(p, s, i)
    ensures Matches(p, s, q) && i <= q
    decreases |s| - i
  {
    hide Matches;
    if Matches(p, s, i) {
      if q != i {
        TakenMatches(p, s, i + Width(p), q);
      }
    } else {
      TakenMatches(p, s, i + 1, q);
    }
  }

  lemma {:induction false} TakenApart(p: Pattern, s: string, i: nat, q: nat, r: nat)
    requires q in Taken(p, s, i) && r in Taken(p, s, i) && q < r
    ensures q + Width(p) <= r
    decreases |s| - i
  {
    hide Matches;
    if Matches(p, s, i) {
      var rest := Taken(p, s, i + Width(p));
      assert Taken(p, s, i) == [i] + rest;
      if r in rest {
        TakenMatches(p, s, i + Width(p), r);
      }
      if q in rest {
        TakenMatches(p, s, i + Width(p), q);
        TakenApart(p, s, i + Width(p), q, r);
      }
    } else {
      TakenApart(p, s, i + 1, q, r);
    }
  }

  // Every match overlaps one that is taken at or before it.
  lemma {:induction false} TakenCovers(p: Pattern, s: string, i: nat, k: nat) returns (q: nat)
    requires i <= k && Matches(p, s, k)
    ensures q in Taken(p, s, i) && q <= k < q + Width(p)
    decreases |s| - i
  {
    hide Matches;
    var n := MatchFits(p, s, k);
    if Matches(p, s, i) {
      q := i;
      if i + Width(p) <= k {
        q := TakenCovers(p, s, i + Width(p), k);
      }
    } else {
      q := TakenCovers(p, s, i + 1, k);
    }
  }

  lemma TakenHides(p: Pattern, s: string, q: nat, j: nat)
    requires q in Taken(p, s, 0) && q <= j < q + Width(p) && MaskedAt(p, j - q)
    ensures Hidden(p, s, 0, j)
  {
  }

  // ---- Card numbers after the first pass ----

  // A card that the first pass takes ends in the digits that the one at k begins with.
  predicate InTail(s: string, k: nat) {
    exists q | q in Taken(Card, s, 0) :: q + 15 <= k < q + 19
  }

  predicate NoCardWithin(s: string, k: nat) {
    forall p: nat | k < p < k + 19 :: !Matches(Card, s, p)
  }

  lemma FirstPassLeaves(s: string, k: nat)
    requires Matches(Card, s, k)
    ensures (forall j | k <= j < k + 19 :: !Hidden(Card, s, 0, j)) <==> InTail(s, k) && NoCardWithin(s, k)
  {
    hide Matches, Hidden, Taken;
    if forall j | k <= j < k + 19 :: !Hidden(Card, s, 0, j) {
      var q := TakenCovers(Card, s, 0, k);
      TailOfTaken(s, q, k);
      forall p: nat | k < p < k + 19
        ensures !Matches(Card, s, p)
      {
        if Matches(Card, s, p) {
          var j := CardWithinHides(s, q, k, p);
          assert false;
        }
      }
    }
    if InTail(s, k) && NoCardWithin(s, k) {
      var q :| q in Taken(Card, s, 0) && q + 15 <= k < q + 19;
      forall j | k <= j < k + 19
        ensures !Hidden(Card, s, 0, j)
      {
        NothingHidden(s, q, k, j);
      }
    }
  }

  lemma TailOfTaken(s: string, q: nat, k: nat)
    requires q in Taken(Card, s, 0) && q <= k < q + 19 && Matches(Card, s, k)
    requires !Hidden(Card, s, 0, k)
    ensures q + 15 <= k
  {
    hide Matches, Hidden, Taken;
    TakenMatches(Card, s, 0, q);
    if k < q + 15 {
      if q < k {
        CardsOverlapInGroups(s, q, k);
      }
      TakenHides(Card, s, q, k);
    }
  }

  lemma CardWithinHides(s: string, q: nat, k: nat, p: nat) returns (j: nat)
    requires q in Taken(Card, s, 0) && q + 15 <= k < q + 19
    requires Matches(Card, s, k) && Matches(Card, s, p) && k < p < k + 19
    ensures k <= j < k + 19 && Hidden(Card, s, 0, j)
  {
    hide Matches, Hidden, Taken;
    j := TakenCovers(Card, s, 0, p);
    CardsOverlapInGroups(s, k, p);
    TakenApart(Card, s, 0, q, j);
    TakenHides(Card, s, j, j);
  }

  lemma NothingHidden(s: string, q: nat, k: nat, j: nat)
    requires q in Taken(Card, s, 0) && q + 15 <= k < q + 19 && NoCardWithin(s, k) && k <= j < k + 19
    ensures !Hidden(Card, s, 0, j)
  {
    hide Matches, Taken;
    if Hidden(Card, s, 0, j) {
      var r :| r in Taken(Card, s, 0) && r <= j < r + Width(Card) && MaskedAt(Card, j - r);
      TakenMatches(Card, s, 0, r);
      TakenApart(Card, s, 0, q, r);
    }
  }

  // ---- Runs of digits after the first pass ----

  predicate RunBegins(s: string, i: nat) {
    i < |s| && Digit(s[i]) && (i > 0 ==> !Digit(s[i - 1]))
  }

  // What the first pass leaves of a run: all of it, or all but the last four digits, if
  // a card number begins there.
  function LeftRun(s: string, i: nat): nat {
    var n := Run(s, i);
    if n >= 4 && Matches(Card, s, i + n - 4) then n - 4 else n
  }

  lemma {:induction false} RunIs(s: string, i: nat, n: nat)
    requires i + n <= |s| && (forall j | i <= j < i + n :: Digit(s[j]))
    requires i + n < |s| ==> !Digit(s[i + n])
    ensures Run(s, i) == n
    decreases n
  {
    if n > 0 {
      RunIs(s, i + 1, n - 1);
    }
  }

  lemma RunShape(s: string, i: nat)
    requires i <= |s|
    ensures i + Run(s, i) <= |s| && (forall j | i <= j < i + Run(s, i) :: Digit(s[j]))
    ensures i + Run(s, i) < |s| ==> !Digit(s[i + Run(s, i)])
  {
    hide Run;
    RunDigits(s, i, 0);
    forall j | i <= j < i + Run(s, i)
      ensures Digit(s[j])
    {
      RunDigits(s, i, j - i);
    }
  }

  // A digit of a long run is hidden only at its end.
  lemma HiddenInRun(s: string, i: nat, j: nat)
    requires RunBegins(s, i) && Run(s, i) >= 8 && i <= j < i + Run(s, i)
    ensures Hidden(Card, s, 0, j) ==>
              Matches(Card, s, i + Run(s, i) - 4) && i + Run(s, i) - 4 <= j
  {
    hide Matches, Taken, Run;
    RunShape(s, i);
    if Hidden(Card, s, 0, j) {
      var q :| q in Taken(Card, s, 0) && q <= j < q + Width(Card) && MaskedAt(Card, j - q);
      TakenMatches(Card, s, 0, q);
      CardShape(s, q);
    }
  }

  // A card number that begins with the last four digits of a long run is taken.
  lemma CardAtRunEnd(s: string, i: nat)
    requires RunBegins(s, i) && Run(s, i) >= 8 && Matches(Card, s, i + Run(s, i) - 4)
    ensures i + Run(s, i) - 4 in Taken(Card, s, 0)
  {
    hide Matches, Taken, Run;
    var k := i + Run(s, i) - 4;
    RunShape(s, i);
    var q := TakenCovers(Card, s, 0, k);
    if q < k {
      TakenMatches(Card, s, 0, q);
      CardShape(s, q);
      CardsOverlapInGroups(s, q, k);
    }
  }

  lemma LeftRunIsLeft(s: string, i: nat)
    requires RunBegins(s, i) && Run(s, i) >= 8
    ensures Run(Replaced(Card, s, 0), i) == LeftRun(s, i)
  {
    hide Matches, Taken, Run, Hidden, Replaced, MasksOf;
    var r, n, left := Replaced(Card, s, 0), Run(s, i), LeftRun(s, i);
    RunShape(s, i);
    ReplacedAt(Card, s, 0, i);
    forall j | i <= j < i + left
      ensures Digit(r[j])
    {
      HiddenInRun(s, i, j);
      ReplacedAt(Card, s, 0, j);
    }
    if left < n {
      CardAtRunEnd(s, i);
      TakenHides(Card, s, i + left, i + left);
    }
    if i + left < |s| {
      NotDigitBehind(s, i + left);
    }
    RunIs(r, i, left);
  }

  lemma NotDigitBehind(s: string, j: nat)
    requires j < |s| && (!Digit(s[j]) || Hidden(Card, s, 0, j))
    ensures |Replaced(Card, s, 0)| == |s| && !Digit(Replaced(Card, s, 0)[j])
  {
    hide Hidden, Replaced;
    FirstPass(s);
    ReplacedAt(Card, s, 0, j);
  }

  // The first pass masks digits and keeps all else.
  lemma FirstPass(s: string)
    ensures MasksOf(s, Replaced(Card, s, 0))
  {
    ReplacedMasks(Card, s, 0);
    assert s[0..] == s;
  }

  lemma {:induction false} FewerDigits(s: string, r: string, i: nat)
    requires MasksOf(s, r) && i <= |s|
    ensures Run(r, i) <= Run(s, i)
    decreases |s| - i
  {
    if i < |s| {
      FewerDigits(s, r, i + 1);
    }
  }

  // ---- Codes ----

  lemma {:induction false} LeavingRunBegins(s: string, i: nat)
    requires i <= |s| && (i > 0 ==> i == |s| || !Digit(s[i]) || !Digit(s[i - 1]))
    ensures HasLeavingRun(s, i) <==> exists j :: i <= j && RunBegins(s, j) && LeavesCode(Run(s, j))
    decreases |s| - i
  {
    hide LeavesCode, Run;
    if i < |s| {
      RunShape(s, i);
      var step := Max(1, Run(s, i));
      RunAtDigit(s, i);
      LeavingRunBegins(s, i + step);
      assert HasLeavingRun(s, i) <==> LeavesCode(Run(s, i)) || HasLeavingRun(s, i + step);
      LeavesCodeStep(10);
      if LeavesCode(Run(s, i)) {
        assert RunBegins(s, i);
      }
    }
  }

  lemma RunAtDigit(s: string, i: nat)
    requires i < |s|
    ensures Run(s, i) > 0 <==> Digit(s[i])
  {
  }

  // A run that the first pass leaves begins where a run began before.
  lemma LeftRunBegins(s: string, i: nat)
    requires RunBegins(Replaced(Card, s, 0), i)
    ensures RunBegins(s, i)
  {
    hide Matches, Taken, Replaced, Hidden;
    FirstPass(s);
    if i > 0 && Digit(s[i - 1]) {
      ReplacedAt(Card, s, 0, i - 1);
      HiddenUpTo(s, i);
      ReplacedAt(Card, s, 0, i);
    }
  }

  // Behind a hidden digit comes a hidden one, or a hyphen.
  lemma HiddenUpTo(s: string, i: nat)
    requires 0 < i < |s| && Hidden(Card, s, 0, i - 1)
    ensures Digit(s[i]) ==> Hidden(Card, s, 0, i)
  {
    hide Matches, Taken;
    var q :| q in Taken(Card, s, 0) && q <= i - 1 < q + Width(Card) && MaskedAt(Card, i - 1 - q);
    TakenMatches(Card, s, 0, q);
    CardShape(s, q);
    if Digit(s[i]) {
      TakenHides(Card, s, q, i);
    }
  }

  // A ten-digit code is left in the result exactly if for some run of digits, of which
  // the first pass leaves n, n is at least ten and n % 10 at least seven.
  lemma CodeSurvives(value: string)
    ensures LongestRun(Masked(value)) >= 10 <==>
            exists i :: RunBegins(value, i) && LeavesCode(LeftRun(value, i))
  {
    hide HasLeavingRun, Run, LongestRun, Matches, RunBegins, LeavesCode;
    var cards := Replaced(Card, value, 0);
    CodeSurvivesFrom(cards, 0);
    LeavingRunBegins(cards, 0);
    if i :| RunBegins(cards, i) && LeavesCode(Run(cards, i)) {
      LeftRunBegins(value, i);
      LongEnough(value, i, Run(cards, i));
      LeftRunIsLeft(value, i);
    }
    if i :| RunBegins(value, i) && LeavesCode(LeftRun(value, i)) {
      LongLeft(value, i);
      LeftRunIsLeft(value, i);
      StillBegins(value, i);
    }
  }

  lemma LongEnough(s: string, i: nat, n: nat)
    requires RunBegins(s, i) && n == Run(Replaced(Card, s, 0), i) && LeavesCode(n)
    ensures Run(s, i) >= 8
  {
    hide Run, Replaced;
    FirstPass(s);
    FewerDigits(s, Replaced(Card, s, 0), i);
  }

  lemma LongLeft(s: string, i: nat)
    requires LeavesCode(LeftRun(s, i))
    ensures Run(s, i) >= 10
  {
  }

  lemma StillBegins(s: string, i: nat)
    requires RunBegins(s, i) && Run(Replaced(Card, s, 0), i) > 0
    ensures RunBegins(Replaced(Card, s, 0), i)
  {
    FirstPass(s);
  }

  // Without card numbers these are the runs of the text itself.
  lemma CodeSurvivesWithoutCards(value: string)
    requires forall k :: !Matches(Card, value, k)
    ensures LongestRun(Masked(value)) >= 10 <==> HasLeavingRun(value, 0)
  {
    hide HasLeavingRun, Run, LongestRun, Matches, RunBegins, LeavesCode, Masked;
    CodeSurvives(value);
    LeavingRunBegins(value, 0);
    forall i: nat
      ensures LeftRun(value, i) == Run(value, i)
    {
    }
  }

  // Seventeen digits keep ten.
  lemma SeventeenDigits(s: string)
    requires |s| == 17 && forall i | 0 <= i < 17 :: Digit(s[i])
    ensures LongestRun(Masked(s)) >= 10
  {
    hide Masked, LongestRun;
    RunIs(s, 0, 17);
    CodeSurvivesWithoutCards(s);
  }

  // ---- Card numbers ----

  // The second pass hides a digit of a card number that came through the first exactly
  // if its last group belongs to a run of ten digits.
  lemma SecondPassLeaves(s: string, q: nat, k: nat)
    requires Matches(Card, s, k) && q + 15 <= k < q + 19 && q + 14 < |s| && s[q + 14] == '-'
    ensures (forall j | k <= j < k + 19 :: !Hidden(Code, s, 0, j)) <==> Run(s, k + 15) < 10
  {
    hide Matches, Hidden, Taken, Run;
    CardShape(s, k);
    if Run(s, k + 15) >= 10 {
      CodeMatches(s, k + 15);
      var c := TakenCovers(Code, s, 0, k + 15);
      CodeShape(s, c);
      TakenHides(Code, s, c, k + 15);
    } else {
      forall j | k <= j < k + 19
        ensures !Hidden(Code, s, 0, j)
      {
        if Hidden(Code, s, 0, j) {
          var c := HiddenBy(s, j);
          CodeShape(s, c);
          RunAtLeastTo(s, k + 15, c);
        }
      }
    }
  }

  lemma HiddenBy(s: string, j: nat) returns (c: nat)
    requires Hidden(Code, s, 0, j)
    ensures c in Taken(Code, s, 0) && c <= j < c + 7
  {
    c :| c in Taken(Code, s, 0) && c <= j < c + Width(Code) && MaskedAt(Code, j - c);
  }

  lemma CodeShape(s: string, c: nat)
    requires c in Taken(Code, s, 0)
    ensures c + 10 <= |s| && forall j | c <= j < c + 10 :: Digit(s[j])
  {
    TakenMatches(Code, s, 0, c);
    forall j | c <= j < c + 10
      ensures Digit(s[j])
    {
      assert FitsAt(Code, s, c, j - c);
    }
  }

  lemma RunAtLeastTo(s: string, i: nat, c: nat)
    requires c + 10 <= |s| && (forall j | c <= j < c + 10 :: Digit(s[j]))
    requires i + 4 <= |s| && (forall j | i <= j < i + 4 :: Digit(s[j]))
    ensures i <= c < i + 4 ==> Run(s, i) >= 10
  {
    if i <= c < i + 4 {
      RunAtLeast(s, i, c + 10 - i);
    }
  }

  // A card number is left at k exactly if there was one, it begins in the last group of
  // one that the first pass takes, no other begins within it, and the run of digits
  // that its last group belongs to is short.
  lemma CardSurvives(value: string, k: nat)
    ensures Matches(Card, Masked(value), k) <==>
            && Matches(Card, value, k) && InTail(value, k) && NoCardWithin(value, k)
            && LeftRun(value, k + 15) < 10
  {
    hide Matches, Hidden, InTail, NoCardWithin, Run, LeftRun;
    var cards := Replaced(Card, value, 0);
    CardSurvivesPass(Card, value, k);
    CardSurvivesPass(Code, cards, k);
    if Matches(Card, value, k) {
      FirstPassLeaves(value, k);
      if InTail(value, k) && NoCardWithin(value, k) {
        var q := HyphenInFront(value, k);
        SecondPassLeaves(cards, q, k);
        LastGroupLeft(value, k);
      }
    }
  }

  lemma HyphenInFront(s: string, k: nat) returns (q: nat)
    requires InTail(s, k)
    ensures var r := Replaced(Card, s, 0); q + 15 <= k < q + 19 && q + 14 < |r| && r[q + 14] == '-'
  {
    hide Matches, Taken;
    q :| q in Taken(Card, s, 0) && q + 15 <= k < q + 19;
    TakenMatches(Card, s, 0, q);
    CardShape(s, q);
    FirstPass(s);
  }

  lemma LastGroupLeft(s: string, k: nat)
    requires Matches(Card, s, k)
    ensures Run(Replaced(Card, s, 0), k + 15) < 10 <==> LeftRun(s, k + 15) < 10
  {
    hide Matches, Run, Replaced;
    CardShape(s, k);
    if Run(s, k + 15) >= 8 {
      LeftRunIsLeft(s, k + 15);
    } else {
      FirstPass(s);
      FewerDigits(s, Replaced(Card, s, 0), k + 15);
    }
  }

  predicate CardsOverlap(s: string, q: nat, k: nat) {
    Matches(Card, s, q) && Matches(Card, s, k) && q + 15 <= k < q + 19
  }

  // So none is left where no card number begins within the last four digits of another.
  lemma NoCardSurvives(value: string, k: nat)
    requires forall q :: !CardsOverlap(value, q, k)
    ensures !Matches(Card, Masked(value), k)
  {
    hide Matches, Masked, LeftRun, NoCardWithin;
    CardSurvives(value, k);
    if Matches(Card, value, k) && InTail(value, k) {
      var q :| q in Taken(Card, value, 0) && q + 15 <= k < q + 19;
      TakenMatches(Card, value, 0, q);
      assert CardsOverlap(value, q, k);
    }
  }

  // ---- Chains of groups ----

  // Group g of a chain, with the hyphen behind it, if it is not the last.
  predicate GroupAt(s: string, n: nat, g: nat) {
    5 * g + 4 <= |s| &&
    Digit(s[5 * g]) && Digit(s[5 * g + 1]) && Digit(s[5 * g + 2]) && Digit(s[5 * g + 3]) &&
    (g + 1 < n ==> 5 * g + 4 < |s| && s[5 * g + 4] == '-')
  }

  // n groups of four digits, joined by hyphens.
  predicate Chain(s: string, n: nat) {
    |s| == 5 * n - 1 && forall g: nat | g < n :: GroupAt(s, n, g)
  }

  lemma CardBeginsGroup(s: string, n: nat, k: nat) returns (g: nat)
    requires Chain(s, n) && Matches(Card, s, k)
    ensures k == 5 * g && g + 4 <= n
  {
    hide Matches;
    CardShape(s, k);
    g := k / 5;
    assert GroupAt(s, n, g + 1);
  }

  lemma GroupBeginsCard(s: string, n: nat, g: nat)
    requires Chain(s, n) && g + 4 <= n
    ensures Matches(Card, s, 5 * g)
  {
    assert GroupAt(s, n, g) && GroupAt(s, n, g + 1) && GroupAt(s, n, g + 2) && GroupAt(s, n, g + 3);
    forall j: nat | j < 19
      ensures FitsAt(Card, s, 5 * g, j)
    {
    }
  }

  // The hyphen behind a card begins none.
  lemma TakenAfter(s: string, i: nat)
    requires Matches(Card, s, i)
    ensures Taken(Card, s, i) == [i] + Taken(Card, s, i + 19)
    ensures i + 19 < |s| && s[i + 19] == '-' ==> Taken(Card, s, i + 19) == Taken(Card, s, i + 20)
    ensures i + 19 == |s| ==> Taken(Card, s, i + 19) == []
  {
    hide Matches;
    CardShape(s, i);
    if Matches(Card, s, i + 19) {
      CardShape(s, i + 19);
    }
  }

  lemma BehindCard(s: string, n: nat, g: nat)
    requires Chain(s, n) && g + 4 <= n
    ensures g + 4 == n ==> 5 * g + 19 == |s|
    ensures g + 4 < n ==> 5 * g + 19 < |s| && s[5 * g + 19] == '-'
  {
    assert GroupAt(s, n, g + 3);
  }

  // The first pass takes the cards that begin with every fourth group.
  lemma {:induction false} TakenInChain(s: string, n: nat, u: nat, q: nat) returns (v: nat)
    requires Chain(s, n) && q in Taken(Card, s, 20 * u)
    ensures u <= v && q == 20 * v && 4 * v + 4 <= n
    decreases n - u
  {
    hide Matches, Chain, Taken;
    if Matches(Card, s, 20 * u) {
      var g := CardBeginsGroup(s, n, 20 * u);
      v := u;
      if q != 20 * u {
        TakenAfter(s, 20 * u);
        BehindCard(s, n, g);
        assert 20 * u + 20 == 20 * (u + 1);
        v := TakenInChain(s, n, u + 1, q);
      }
    } else {
      TakenMatches(Card, s, 20 * u, q);
      var g := CardBeginsGroup(s, n, q);
      GroupBeginsCard(s, n, 4 * u);
    }
  }

  lemma {:induction false} EveryFourthTaken(s: string, n: nat, u: nat, v: nat)
    requires Chain(s, n) && u <= v && 4 * v + 4 <= n
    ensures 20 * v in Taken(Card, s, 20 * u)
    decreases v - u
  {
    hide Matches, Chain, Taken;
    GroupBeginsCard(s, n, 4 * u);
    TakenAfter(s, 20 * u);
    if u < v {
      BehindCard(s, n, 4 * u);
      EveryFourthTaken(s, n, u + 1, v);
    }
  }

  // A chain keeps a card number exactly if it has seven groups, or eleven, and so on.
  lemma CardInChainSurvives(s: string, n: nat)
    requires Chain(s, n)
    ensures (exists k: nat :: Matches(Card, Masked(s), k)) <==> n >= 7 && n % 4 == 3
  {
    hide Matches, Masked, Chain;
    if k: nat :| Matches(Card, Masked(s), k) {
      var v := SurvivorInChain(s, n, k);
    }
    if n >= 7 && n % 4 == 3 {
      var v: nat := (n - 7) / 4;
      LastCardOfChain(s, n, v);
      assert Matches(Card, Masked(s), 20 * v + 15);
    }
  }

  lemma SurvivorInChain(s: string, n: nat, k: nat) returns (v: nat)
    requires Chain(s, n) && Matches(Card, Masked(s), k)
    ensures n == 4 * v + 7
  {
    hide Matches, Masked, LeftRun, Taken, Chain;
    CardSurvives(s, k);
    var g := CardBeginsGroup(s, n, k);
    var q :| q in Taken(Card, s, 0) && q + 15 <= k < q + 19;
    v := TakenInChain(s, n, 0, q);
    if g + 5 <= n {
      GroupBeginsCard(s, n, g + 1);
    }
  }

  lemma LastCardOfChain(s: string, n: nat, v: nat)
    requires Chain(s, n) && n == 4 * v + 7
    ensures Matches(Card, Masked(s), 20 * v + 15)
  {
    hide Matches, Masked, Taken, Run, Chain;
    var k := 20 * v + 15;
    CardSurvives(s, k);
    GroupBeginsCard(s, n, 4 * v + 3);
    EveryFourthTaken(s, n, 0, v);
    forall p: nat | k < p < k + 19
      ensures !Matches(Card, s, p)
    {
      if Matches(Card, s, p) {
        var g := CardBeginsGroup(s, n, p);
      }
    }
    BehindCard(s, n, 4 * v + 3);
    RunShape(s, k + 15);
  }

  // The shortest such text keeps its second card number.
  lemma SecondCardSurvives(s: string)
    requires Chain(s, 7)
    ensures Matches(Card, Masked(s), 15)
  {
    LastCardOfChain(s, 7, 0);
  }
}
