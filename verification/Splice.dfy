// Editing a sequence in place from back to front, and the left-to-right rewriting
// that it amounts to.
module Splice {
  import opened Sequences

  // Replace length elements at pos by text.
  datatype Edit<T> = Edit(pos: nat, length: nat, text: seq<T>)

  predicate InRange<T>(body: seq<T>, e: Edit<T>) {
    e.pos + e.length <= |body|
  }

  function ApplyOne<T>(body: seq<T>, e: Edit<T>): seq<T>
    requires InRange(body, e)
  {
    body[..e.pos] + e.text + body[e.pos + e.length..]
  }

  // The edits lie within body from from on, from left to right, without overlap.
  predicate Ascending<T>(body: seq<T>, es: seq<Edit<T>>, from: nat) {
    if es == [] then from <= |body|
    else from <= es[0].pos && Ascending(body, es[1..], es[0].pos + es[0].length)
  }

  // body from from on, copied from left to right with the edits made on the way.
  function Rewrite<T>(body: seq<T>, es: seq<Edit<T>>, from: nat): seq<T>
    requires Ascending(body, es, from)
  {
    if es == [] then body[from..]
    else
      AscendingInRange(body, es, from);
      body[from..es[0].pos] + es[0].text + Rewrite(body, es[1..], es[0].pos + es[0].length)
  }

  function Reverse<A>(s: seq<A>): (r: seq<A>)
    ensures |r| == |s|
  {
    if s == [] then [] else Reverse(s[1..]) + [s[0]]
  }

  lemma {:induction false} ReverseConcat<A>(s: seq<A>, t: seq<A>)
    ensures Reverse(s + t) == Reverse(t) + Reverse(s)
  {
    if s == [] {
      WithEmpty(t);
      WithEmpty(Reverse(t));
    } else {
      ReverseConcat(s[1..], t);
      TailOfConcat(s, t);
      Associate(Reverse(t), Reverse(s[1..]), [s[0]]);
    }
  }

  lemma ReverseSnoc<A>(s: seq<A>, x: A)
    ensures Reverse(s + [x]) == [x] + Reverse(s)
  {
    ReverseConcat(s, [x]);
    assert Reverse([x]) == [x];
  }

  lemma {:induction false} ReverseMultiset<A>(s: seq<A>)
    ensures multiset(Reverse(s)) == multiset(s)
  {
    if s != [] {
      ReverseMultiset(s[1..]);
      assert s == [s[0]] + s[1..];
    }
  }

  lemma MultisetWithout<A>(l: seq<A>, x: A, r: seq<A>)
    ensures multiset(l + [x] + r) - multiset{x} == multiset(l + r)
  {
    assert multiset(l + [x] + r) == multiset(l) + multiset{x} + multiset(r);
    assert multiset(l + r) == multiset(l) + multiset(r);
  }

  // Permuted sequences: the first element of one, taken out of the other.
  lemma TakeOut<A>(a: seq<A>, b: seq<A>) returns (l: seq<A>, r: seq<A>)
    requires a != [] && multiset(a) == multiset(b)
    ensures b == l + [a[0]] + r
    ensures multiset(a[1..]) == multiset(l + r)
  {
    assert a[0] in multiset(b);
    var i :| 0 <= i < |b| && b[i] == a[0];
    l, r := b[..i], b[i + 1..];
    TakenApart(b, i);
    TakenApart(a, 0);
    WithEmpty(a[1..]);
    MultisetWithout([], a[0], a[1..]);
    MultisetWithout(l, a[0], r);
  }

  lemma TakenApart<A>(s: seq<A>, i: nat)
    requires i < |s|
    ensures s == s[..i] + [s[i]] + s[i + 1..]
  {
  }

  lemma {:induction false} AscendingInRange<T>(body: seq<T>, es: seq<Edit<T>>, from: nat)
    requires Ascending(body, es, from)
    ensures from <= |body|
    ensures es != [] ==> InRange(body, es[0])
  {
    if es != [] {
      AscendingInRange(body, es[1..], es[0].pos + es[0].length);
    }
  }

  lemma {:induction false} AscendingConcat<T>(body: seq<T>, es: seq<Edit<T>>, e: Edit<T>, from: nat)
    requires Ascending(body, es, from) && InRange(body, e) && from <= e.pos
    requires forall x | x in es :: x.pos + x.length <= e.pos
    ensures Ascending(body, es + [e], from)
  {
    if es != [] {
      AscendingConcat(body, es[1..], e, es[0].pos + es[0].length);
      assert (es + [e])[1..] == es[1..] + [e];
    } else {
      assert [e][1..] == [];
    }
  }

  // Copying can start earlier.
  lemma {:induction false} RewriteFrom<T>(body: seq<T>, es: seq<Edit<T>>, from: nat, k: nat)
    requires from <= k && Ascending(body, es, k)
    ensures Ascending(body, es, from) && k <= |body|
    ensures Rewrite(body, es, from) == body[from..k] + Rewrite(body, es, k)
  {
    AscendingInRange(body, es, k);
    if es == [] {
      SliceSplit(body, from, k, |body|);
    } else {
      SliceSplit(body, from, k, es[0].pos);
      var rest := Rewrite(body, es[1..], es[0].pos + es[0].length);
      AssociateFour(body[from..k], body[k..es[0].pos], es[0].text, rest);
    }
  }

  lemma AssociateFour<T>(a: seq<T>, b: seq<T>, c: seq<T>, d: seq<T>)
    ensures (a + b) + c + d == a + (b + c + d)
  {
  }

  lemma SliceSplit<T>(s: seq<T>, i: nat, j: nat, k: nat)
    requires i <= j <= k <= |s|
    ensures s[i..k] == s[i..j] + s[j..k]
  {
  }

  // One more edit in front of those already made: the place it goes to has not moved.
  lemma {:induction false} RewriteStep<T>(body: seq<T>, e: Edit<T>, es: seq<Edit<T>>)
    requires Ascending(body, [e] + es, 0)
    ensures Ascending(body, es, 0)
    ensures var done := Rewrite(body, es, 0);
            InRange(done, e) && ApplyOne(done, e) == Rewrite(body, [e] + es, 0)
  {
    var k := e.pos + e.length;
    assert ([e] + es)[1..] == es;
    RewriteFrom(body, es, 0, k);
    var done := Rewrite(body, es, 0);
    assert done[..e.pos] == body[..e.pos];
    assert done[k..] == Rewrite(body, es, k);
  }

  lemma RewriteNothing<T>(body: seq<T>)
    ensures Ascending(body, [], 0) && Rewrite(body, [], 0) == body
  {
  }

  // The in-place loop: the edits come last place first.
  method ApplyBackToFront<T>(body: seq<T>, es: seq<Edit<T>>) returns (result: seq<T>)
    requires Ascending(body, Reverse(es), 0)
    ensures result == Rewrite(body, Reverse(es), 0)
  {
    result := body;
    for i := 0 to |es|
      invariant Ascending(body, Reverse(es[..i]), 0)
      invariant result == Rewrite(body, Reverse(es[..i]), 0)
    {
      assert es[..i + 1] == es[..i] + [es[i]];
      ReverseSnoc(es[..i], es[i]);
      PrefixAscending(body, es, i + 1);
      RewriteStep(body, es[i], Reverse(es[..i]));
      result := ApplyOne(result, es[i]);
    }
    assert es[..|es|] == es;
  }

  lemma {:induction false} PrefixAscending<T>(body: seq<T>, es: seq<Edit<T>>, i: nat)
    requires Ascending(body, Reverse(es), 0) && i <= |es|
    ensures Ascending(body, Reverse(es[..i]), 0)
  {
    assert es == es[..i] + es[i..];
    ReverseConcat(es[..i], es[i..]);
    var r := Reverse(es);
    assert r[|es| - i..] == Reverse(es[..i]);
    SuffixAscending(body, r, 0, |es| - i);
  }

  lemma {:induction false} SuffixAscending<T>(body: seq<T>, es: seq<Edit<T>>, from: nat, k: nat)
    requires Ascending(body, es, from) && k <= |es|
    ensures Ascending(body, es[k..], 0)
  {
    if k == 0 {
      RewriteFrom(body, es, 0, from);
      assert es[0..] == es;
    } else {
      SuffixAscending(body, es[1..], es[0].pos + es[0].length, k - 1);
      assert es[1..][k - 1..] == es[k..];
    }
  }

  // ---- What a rewriting does to its input ----

  function TextLength<T>(es: seq<Edit<T>>): nat {
    if es == [] then 0 else |es[0].text| + TextLength(es[1..])
  }

  function CutLength<T>(es: seq<Edit<T>>): nat {
    if es == [] then 0 else es[0].length + CutLength(es[1..])
  }

  lemma {:induction false} RewriteLength<T>(body: seq<T>, es: seq<Edit<T>>, from: nat)
    requires Ascending(body, es, from)
    ensures from + CutLength(es) <= |body|
    ensures |Rewrite(body, es, from)| == |body| - from + TextLength(es) - CutLength(es)
  {
    AscendingInRange(body, es, from);
    if es != [] {
      RewriteLength(body, es[1..], es[0].pos + es[0].length);
    }
  }

  function Keep<T>(s: seq<T>, p: T -> bool): seq<T> {
    if s == [] then [] else (if p(s[0]) then [s[0]] else []) + Keep(s[1..], p)
  }

  lemma {:induction false} KeepConcat<T>(s: seq<T>, t: seq<T>, p: T -> bool)
    ensures Keep(s + t, p) == Keep(s, p) + Keep(t, p)
  {
    if s == [] {
      WithEmpty(t);
    } else {
      KeepConcat(s[1..], t, p);
      TailOfConcat(s, t);
      Associate(if p(s[0]) then [s[0]] else [], Keep(s[1..], p), Keep(t, p));
    }
  }

  lemma {:induction false} KeepAll<T>(s: seq<T>, p: T -> bool)
    ensures (forall x | x in s :: p(x)) ==> Keep(s, p) == s
    ensures (forall x | x in s :: !p(x)) ==> Keep(s, p) == []
  {
    if s != [] {
      KeepAll(s[1..], p);
    }
  }

  ghost predicate Unmarked<T>(s: seq<T>, p: T -> bool) {
    forall x | x in s :: !p(x)
  }

  lemma KeepThrough<T>(a: seq<T>, text: seq<T>, rest: seq<T>, p: T -> bool)
    requires forall x | x in a :: p(x)
    requires Unmarked(text, p)
    ensures Keep(a + text + rest, p) == a + Keep(rest, p)
  {
    KeepAll(a, p);
    KeepAll(text, p);
    KeepConcat(a, text, p);
    KeepConcat(a + text, rest, p);
  }

  // Taking the inserted text out again gives the body back. Stated for marked elements:
  // p tells the body's from the text's.
  lemma {:induction false} DeletingTextRestores<T>(body: seq<T>, es: seq<Edit<T>>, from: nat, p: T -> bool)
    requires Ascending(body, es, from)
    requires Insertions(es)
    requires forall x | x in body :: p(x)
    requires forall i | 0 <= i < |es| :: Unmarked(es[i].text, p)
    ensures from <= |body| && Keep(Rewrite(body, es, from), p) == body[from..]
  {
    AscendingInRange(body, es, from);
    if es == [] {
      KeepAll(body[from..], p);
    } else {
      InsertionsTail(es);
      var a, text := body[from..es[0].pos], es[0].text;
      DeletingTextRestores(body, es[1..], es[0].pos, p);
      KeepThrough(a, text, Rewrite(body, es[1..], es[0].pos), p);
      SliceSplit(body, from, es[0].pos, |body|);
    }
  }

  // Where the text of edit i ends up.
  function TextOffset<T>(es: seq<Edit<T>>, i: nat): int
    requires i < |es|
  {
    es[i].pos + TextLength(es[..i]) - CutLength(es[..i])
  }

  lemma AscendingTail<T>(body: seq<T>, es: seq<Edit<T>>, from: nat)
    requires Ascending(body, es, from) && es != []
    ensures from <= es[0].pos && Ascending(body, es[1..], es[0].pos + es[0].length)
  {
  }

  lemma SliceBehind<T>(head: seq<T>, rest: seq<T>, o: nat, n: nat)
    requires o + n <= |rest|
    ensures (head + rest)[|head| + o..|head| + o + n] == rest[o..o + n]
  {
  }

  lemma {:induction false} TextSurvives<T>(body: seq<T>, es: seq<Edit<T>>, from: nat, i: nat)
    requires Ascending(body, es, from) && i < |es|
    ensures var o := TextOffset(es, i) - from;
            0 <= o && o + |es[i].text| <= |Rewrite(body, es, from)| &&
            Rewrite(body, es, from)[o..o + |es[i].text|] == es[i].text
  {
    hide Ascending, Rewrite, TextOffset;
    FirstEdit(body, es, from);
    var next := es[0].pos + es[0].length;
    var a, text, rest := body[from..es[0].pos], es[0].text, Rewrite(body, es[1..], next);
    if i == 0 {
      FirstOffset(es);
      Associate(a, text, rest);
      SliceBehind(a, text + rest, 0, |text|);
      TextInFront(text, rest);
    } else {
      TextSurvives(body, es[1..], next, i - 1);
      NextOffset(es, i);
      SliceBehind(a + text, rest, TextOffset(es[1..], i - 1) - next, |es[i].text|);
    }
  }

  // A text stands between what the body has in front of it and behind it, as far as no
  // other edit comes near.
  lemma {:induction false} TextInContext<T>(body: seq<T>, es: seq<Edit<T>>, from: nat, i: nat, a: nat, b: nat)
    returns (o: nat)
    requires Ascending(body, es, from) && i < |es|
    requires (if i == 0 then from else es[i - 1].pos + es[i - 1].length) <= a <= es[i].pos
    requires es[i].pos + es[i].length <= b <= if i + 1 < |es| then es[i + 1].pos else |body|
    ensures b <= |body|
    ensures var piece := body[a..es[i].pos] + es[i].text + body[es[i].pos + es[i].length..b];
            o + |piece| <= |Rewrite(body, es, from)| && Rewrite(body, es, from)[o..o + |piece|] == piece
  {
    hide Ascending, Rewrite;
    FirstEdit(body, es, from);
    if i == 0 {
      o := FirstInContext(body, es, from, a, b);
    } else {
      var e, next := es[i], es[0].pos + es[0].length;
      assert es[1..][i - 1] == e;
      var q := TextInContext(body, es[1..], next, i - 1, a, b);
      var front := body[from..es[0].pos] + es[0].text;
      SliceBehind(front, Rewrite(body, es[1..], next), q, |body[a..e.pos] + e.text + body[e.pos + e.length..b]|);
      o := |front| + q;
    }
  }

  lemma FirstInContext<T>(body: seq<T>, es: seq<Edit<T>>, from: nat, a: nat, b: nat) returns (o: nat)
    requires Ascending(body, es, from) && es != []
    requires from <= a <= es[0].pos
    requires es[0].pos + es[0].length <= b <= if |es| > 1 then es[1].pos else |body|
    ensures b <= |body|
    ensures var piece := body[a..es[0].pos] + es[0].text + body[es[0].pos + es[0].length..b];
            o + |piece| <= |Rewrite(body, es, from)| && Rewrite(body, es, from)[o..o + |piece|] == piece
  {
    hide Ascending, Rewrite;
    FirstEdit(body, es, from);
    var pos, next := es[0].pos, es[0].pos + es[0].length;
    AscendingLater(body, es[1..], next, b);
    RewriteFrom(body, es[1..], next, b);
    SliceSplit(body, from, a, pos);
    PieceInside(body[from..a], body[a..pos], es[0].text, body[next..b], Rewrite(body, es[1..], b));
    o := |body[from..a]|;
  }

  lemma AscendingLater<T>(body: seq<T>, es: seq<Edit<T>>, from: nat, b: nat)
    requires Ascending(body, es, from) && b <= if es == [] then |body| else es[0].pos
    ensures Ascending(body, es, b) && b <= |body|
  {
    AscendingInRange(body, es, from);
  }

  lemma PieceInside<T>(a: seq<T>, b: seq<T>, c: seq<T>, d: seq<T>, e: seq<T>)
    ensures var whole, piece := (a + b) + c + (d + e), b + c + d;
            whole == a + piece + e && |a| + |piece| <= |whole| && whole[|a|..|a| + |piece|] == piece
  {
    var whole, piece := (a + b) + c + (d + e), b + c + d;
    assert whole == a + piece + e;
  }

  lemma FirstOffset<T>(es: seq<Edit<T>>)
    requires es != []
    ensures TextOffset(es, 0) == es[0].pos
  {
    assert es[..0] == [];
  }

  lemma NextOffset<T>(es: seq<Edit<T>>, i: nat)
    requires 0 < i < |es|
    ensures TextOffset(es, i) == TextOffset(es[1..], i - 1) + |es[0].text| - es[0].length
  {
    assert es[1..][..i - 1] == es[..i][1..] && es[..i][0] == es[0];
  }

  lemma TextInFront<T>(text: seq<T>, rest: seq<T>)
    ensures (text + rest)[0..|text|] == text
  {
  }

  lemma ReplaceIsCopy<T>(a: seq<T>, b: seq<T>, c: seq<T>, d: seq<T>)
    ensures a + (b + c) + d == (a + b) + c + d
  {
  }

  // e leaves what it replaces in place and puts the text of n behind it.
  predicate Extends<T(==)>(body: seq<T>, e: Edit<T>, n: Edit<T>) {
    && InRange(body, e) && n.pos == e.pos + e.length && n.length == 0
    && e.text == body[e.pos..n.pos] + n.text
  }

  ghost predicate AllExtend<T>(body: seq<T>, es: seq<Edit<T>>, ins: seq<Edit<T>>) {
    |ins| == |es| && forall i | 0 <= i < |es| :: Extends(body, es[i], ins[i])
  }

  lemma AllExtendTail<T>(body: seq<T>, es: seq<Edit<T>>, ins: seq<Edit<T>>)
    requires AllExtend(body, es, ins) && es != []
    ensures ins != [] && Extends(body, es[0], ins[0]) && AllExtend(body, es[1..], ins[1..])
  {
  }

  // An edit that puts its text behind what it replaces is an insertion.
  lemma {:induction false} ExtensionIsInsertion<T>(body: seq<T>, es: seq<Edit<T>>, ins: seq<Edit<T>>, from: nat)
    requires Ascending(body, es, from) && AllExtend(body, es, ins)
    ensures Ascending(body, ins, from)
    ensures Rewrite(body, es, from) == Rewrite(body, ins, from)
  {
    hide AllExtend, Rewrite;
    AscendingInRange(body, es, from);
    if es == [] {
      NothingExtends(body, ins);
    } else {
      AllExtendTail(body, es, ins);
      var next := es[0].pos + es[0].length;
      AscendingTail(body, es, from);
      ExtensionIsInsertion(body, es[1..], ins[1..], next);
      FirstEdit(body, es, from);
      FirstEdit(body, ins, from);
      SliceSplit(body, from, es[0].pos, next);
      ReplaceIsCopy(body[from..es[0].pos], body[es[0].pos..next], ins[0].text, Rewrite(body, es[1..], next));
    }
  }

  lemma FirstEdit<T>(body: seq<T>, es: seq<Edit<T>>, from: nat)
    requires Ascending(body, es, from) && es != []
    ensures from <= es[0].pos <= |body| && Ascending(body, es[1..], es[0].pos + es[0].length)
    ensures Rewrite(body, es, from) ==
            body[from..es[0].pos] + es[0].text + Rewrite(body, es[1..], es[0].pos + es[0].length)
  {
    AscendingInRange(body, es, from);
  }

  lemma NothingExtends<T>(body: seq<T>, ins: seq<Edit<T>>)
    requires AllExtend(body, [], ins)
    ensures ins == []
  {
  }

  // ---- Insertions at the same place ----

  // The texts inserted at p, in the order of es.
  function TextsAt<T>(es: seq<Edit<T>>, p: nat): seq<seq<T>> {
    if es == [] then []
    else (if es[0].pos == p then [es[0].text] else []) + TextsAt(es[1..], p)
  }

  // Simultaneous insertion: at every place of the body all the texts meant for it,
  // then the body's own element.
  function Interleave<T>(body: seq<T>, texts: nat -> seq<seq<T>>, from: nat): seq<T>
    requires from <= |body|
    decreases |body| - from
  {
    Flatten(texts(from)) +
    if from == |body| then [] else [body[from]] + Interleave(body, texts, from + 1)
  }

  lemma {:induction false} InterleaveSame<T>(
    body: seq<T>, f: nat -> seq<seq<T>>, g: nat -> seq<seq<T>>, from: nat)
    requires from <= |body|
    requires forall p: nat | from <= p :: f(p) == g(p)
    ensures Interleave(body, f, from) == Interleave(body, g, from)
    decreases |body| - from
  {
    if from < |body| {
      InterleaveSame(body, f, g, from + 1);
    }
  }

  lemma {:induction false} TextsAtNone<T>(body: seq<T>, es: seq<Edit<T>>, from: nat, p: nat)
    requires Ascending(body, es, from) && p < from
    ensures TextsAt(es, p) == []
  {
    if es != [] {
      TextsAtNone(body, es[1..], es[0].pos + es[0].length, p);
    }
  }

  ghost predicate Insertions<T>(es: seq<Edit<T>>) {
    forall e | e in es :: e.length == 0
  }

  lemma {:induction false} InsertionsInterleave<T>(body: seq<T>, es: seq<Edit<T>>, from: nat)
    requires Ascending(body, es, from) && Insertions(es)
    ensures from <= |body|
    ensures Rewrite(body, es, from) == Interleave(body, (p: nat) => TextsAt(es, p), from)
    decreases |es|, |body| - from
  {
    hide Ascending, Insertions, Interleave, Rewrite, TextsAt;
    AscendingInRange(body, es, from);
    InsertionsTail(es);
    if es != [] && es[0].pos == from {
      FirstEdit(body, es, from);
      InsertionsInterleave(body, es[1..], from);
      InterleaveInsertion(body, es, from);
      WithEmpty(es[0].text);
    } else {
      NothingAt(body, es, from);
      InterleaveCopy(body, (p: nat) => TextsAt(es, p), from);
      if from < |body| {
        RewriteFrom(body, es, from, from + 1);
        InsertionsInterleave(body, es, from + 1);
        assert body[from..from + 1] == [body[from]];
      } else {
        NothingToRewrite(body);
      }
    }
  }

  lemma NothingToRewrite<T>(body: seq<T>)
    ensures Rewrite(body, [], |body|) == []
  {
  }

  // The next insertion lies further on.
  lemma NothingAt<T>(body: seq<T>, es: seq<Edit<T>>, from: nat)
    requires Ascending(body, es, from) && (es != [] ==> es[0].pos != from)
    ensures from <= |body|
    ensures TextsAt(es, from) == []
    ensures from == |body| ==> es == []
    ensures from < |body| ==> Ascending(body, es, from + 1)
  {
    AscendingInRange(body, es, from);
    if es != [] {
      TextsAtNone(body, es, es[0].pos, from);
    }
  }

  lemma InterleaveCopy<T>(body: seq<T>, texts: nat -> seq<seq<T>>, from: nat)
    requires from <= |body| && texts(from) == []
    ensures Interleave(body, texts, from) ==
            if from == |body| then [] else [body[from]] + Interleave(body, texts, from + 1)
  {
  }

  lemma InsertionsTail<T>(es: seq<Edit<T>>)
    requires Insertions(es)
    ensures es != [] ==> es[0].length == 0 && Insertions(es[1..])
  {
  }

  // The first insertion at the place the copying has reached.
  lemma InterleaveInsertion<T>(body: seq<T>, es: seq<Edit<T>>, from: nat)
    requires from <= |body| && es != [] && es[0].pos == from
    ensures Interleave(body, (p: nat) => TextsAt(es, p), from) ==
            es[0].text + Interleave(body, (p: nat) => TextsAt(es[1..], p), from)
  {
    var texts := (p: nat) => TextsAt(es, p);
    var later := (p: nat) => TextsAt(es[1..], p);
    assert texts(from)[1..] == later(from);
    if from < |body| {
      InterleaveSame(body, texts, later, from + 1);
    }
  }
}
