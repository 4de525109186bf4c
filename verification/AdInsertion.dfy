// Ad insertion: collect insertion points in the original body, sort them from the
// back of the body to its front, and splice them in place.
module AdInsertion {
  import opened Sequences
  import opened Splice
  import opened TextSearch
  import opened Wrappers

  datatype AdConfig = AdConfig(slot: string, size: string, marker: string, insertBefore: bool)

  // html is the markup of an ad. configs is in the order in which the program's map
  // hands its entries out.
  datatype Settings = Settings(
    injectGpt: bool, gptUrl: string, configs: seq<(string, AdConfig)>,
    html: (string, AdConfig) -> string)

  type Insertion = Edit<char>

  predicate GptLoaded(body: string) {
    Contains(body, "googletag") || Contains(body, "gpt.js") ||
    Contains(body, "doubleclick.net/tag/js/gpt")
  }

  function PrepareGpt(body: string, url: string): seq<Insertion> {
    match Find(body, "<head>")
    case Some(p) => [Edit(p + 6, 0, "\n  <script async src=\"" + url + "\"></script>")]
    case None =>
      match Find(body, "<body>")
      case Some(p) => [Edit(p, 0, "<script async src=\"" + url + "\"></script>\n")]
      case None => []
  }

  function PrepareAd(body: string, ad: (string, AdConfig), html: (string, AdConfig) -> string): seq<Insertion> {
    match Find(body, ad.1.marker)
    case None => []
    case Some(p) =>
      [Edit(if ad.1.insertBefore then p else p + |ad.1.marker|, 0, html(ad.0, ad.1))]
  }

  function PrepareAds(body: string, ads: seq<(string, AdConfig)>, html: (string, AdConfig) -> string)
    : seq<Insertion>
  {
    if ads == [] then [] else PrepareAd(body, ads[0], html) + PrepareAds(body, ads[1..], html)
  }

  function Collected(body: string, st: Settings): seq<Insertion> {
    (if st.injectGpt && !GptLoaded(body) then PrepareGpt(body, st.gptUrl) else []) +
    PrepareAds(body, st.configs, st.html)
  }

  // ---- Sorting: any result that a correct sort may give ----

  predicate Descending(es: seq<Insertion>) {
    forall i, j | 0 <= i < j < |es| :: es[i].pos >= es[j].pos
  }

  predicate SortOf(sorted: seq<Insertion>, es: seq<Insertion>) {
    multiset(sorted) == multiset(es) && Descending(sorted)
  }

  ghost predicate Sorts(sort: seq<Insertion> -> seq<Insertion>) {
    forall es :: SortOf(sort(es), es)
  }

  // ---- The program ----

  method ApplyAllInsertions(body: string, insertions: seq<Insertion>, sort: seq<Insertion> -> seq<Insertion>)
    returns (result: string)
    requires Sorts(sort) && Insertable(body, insertions)
    ensures Ascending(body, Reverse(sort(insertions)), 0)
    ensures result == Rewrite(body, Reverse(sort(insertions)), 0)
  {
    var sorted := sort(insertions);
    SortedIsAscending(body, insertions, sorted);
    result := ApplyBackToFront(body, sorted);
  }

  // Where the snippets belong, read off the body.
  predicate Has(body: string, pat: string) {
    exists p :: 0 <= p <= |body| && OccursAt(body, pat, p)
  }

  predicate FirstAt(body: string, pat: string, p: nat) {
    OccursAt(body, pat, p) && forall j: nat | j < p :: !OccursAt(body, pat, j)
  }

  predicate AdPlaced(body: string, ad: (string, AdConfig), html: (string, AdConfig) -> string, e: Insertion) {
    && e.length == 0 && e.text == html(ad.0, ad.1)
    && if ad.1.insertBefore then FirstAt(body, ad.1.marker, e.pos)
       else |ad.1.marker| <= e.pos && FirstAt(body, ad.1.marker, e.pos - |ad.1.marker|)
  }

  predicate ScriptPlaced(body: string, url: string, e: Insertion) {
    var script := "<script async src=\"" + url + "\"></script>";
    && e.length == 0
    && if Has(body, "<head>") then 6 <= e.pos && FirstAt(body, "<head>", e.pos - 6) && e.text == "\n  " + script
       else FirstAt(body, "<body>", e.pos) && e.text == script + "\n"
  }

  predicate ScriptWanted(body: string, st: Settings) {
    && st.injectGpt
    && !Has(body, "googletag") && !Has(body, "gpt.js") && !Has(body, "doubleclick.net/tag/js/gpt")
    && (Has(body, "<head>") || Has(body, "<body>"))
  }

  // The ads whose marker occurs, in order.
  function Occurring(body: string, ads: seq<(string, AdConfig)>): seq<(string, AdConfig)> {
    if ads == [] then []
    else (if Has(body, ads[0].1.marker) then [ads[0]] else []) + Occurring(body, ads[1..])
  }

  // The script if it is wanted, and then one snippet for each ad whose marker occurs.
  predicate Placed(body: string, st: Settings, es: seq<Insertion>) {
    var ads, n := Occurring(body, st.configs), if ScriptWanted(body, st) then 1 else 0;
    && |es| == n + |ads|
    && (n == 1 ==> ScriptPlaced(body, st.gptUrl, es[0]))
    && forall i | 0 <= i < |ads| :: AdPlaced(body, ads[i], st.html, es[n + i])
  }

  lemma FindIsFirst(body: string, pat: string)
    ensures Find(body, pat).Some? <==> Has(body, pat)
    ensures Find(body, pat).Some? ==> FirstAt(body, pat, Find(body, pat).value)
  {
    if Has(body, pat) {
      var p :| 0 <= p <= |body| && OccursAt(body, pat, p);
    }
  }

  lemma AdIsPlaced(body: string, ad: (string, AdConfig), html: (string, AdConfig) -> string)
    ensures var es := PrepareAd(body, ad, html);
            if Has(body, ad.1.marker) then |es| == 1 && AdPlaced(body, ad, html, es[0]) else es == []
  {
    hide Find, Has, FirstAt;
    FindIsFirst(body, ad.1.marker);
  }

  lemma {:induction false} AdsArePlaced(
    body: string, ads: seq<(string, AdConfig)>, html: (string, AdConfig) -> string)
    ensures var es, there := PrepareAds(body, ads, html), Occurring(body, ads);
            |es| == |there| && forall i | 0 <= i < |there| :: AdPlaced(body, there[i], html, es[i])
  {
    hide PrepareAd, Has, AdPlaced;
    if ads != [] {
      AdIsPlaced(body, ads[0], html);
      AdsArePlaced(body, ads[1..], html);
      var later, laterThere := PrepareAds(body, ads[1..], html), Occurring(body, ads[1..]);
      if Has(body, ads[0].1.marker) {
        var first := PrepareAd(body, ads[0], html);
        assert forall i | 0 <= i < |later| :: (first + later)[i + 1] == later[i];
        assert forall i | 0 <= i < |laterThere| :: ([ads[0]] + laterThere)[i + 1] == laterThere[i];
      } else {
        WithEmpty(later);
        WithEmpty(laterThere);
      }
    }
  }

  lemma ScriptIsPlaced(body: string, st: Settings)
    ensures var es := if st.injectGpt && !GptLoaded(body) then PrepareGpt(body, st.gptUrl) else [];
            |es| == (if ScriptWanted(body, st) then 1 else 0) && (es != [] ==> ScriptPlaced(body, st.gptUrl, es[0]))
  {
    hide Find, Has, FirstAt;
    FindIsFirst(body, "googletag");
    FindIsFirst(body, "gpt.js");
    FindIsFirst(body, "doubleclick.net/tag/js/gpt");
    FindIsFirst(body, "<head>");
    FindIsFirst(body, "<body>");
    var script := "<script async src=\"" + st.gptUrl + "\"></script>";
    assert "\n  <script async src=\"" + st.gptUrl + "\"></script>" == "\n  " + script;
    assert "<script async src=\"" + st.gptUrl + "\"></script>\n" == script + "\n";
  }

  lemma CollectedArePlaced(body: string, st: Settings)
    ensures Placed(body, st, Collected(body, st))
  {
    hide PrepareAds, PrepareGpt, GptLoaded, ScriptWanted, Occurring, AdPlaced, ScriptPlaced;
    ScriptIsPlaced(body, st);
    AdsArePlaced(body, st.configs, st.html);
  }

  method Collect(body: string, st: Settings) returns (insertions: seq<Insertion>)
    ensures insertions == Collected(body, st)
    ensures Placed(body, st, insertions)
  {
    CollectedArePlaced(body, st);
    hide PrepareAd, PrepareGpt, GptLoaded;
    insertions := [];
    if st.injectGpt && !GptLoaded(body) {
      insertions := insertions + PrepareGpt(body, st.gptUrl);
    }
    ghost var gpt := insertions;
    for i := 0 to |st.configs|
      invariant insertions == gpt + PrepareAds(body, st.configs[..i], st.html)
    {
      insertions := insertions + PrepareAd(body, st.configs[i], st.html);
      assert st.configs[..i + 1] == st.configs[..i] + [st.configs[i]];
      AdsConcat(body, st.configs[..i], [st.configs[i]], st.html);
      assert PrepareAds(body, [st.configs[i]], st.html) == PrepareAd(body, st.configs[i], st.html);
    }
    assert st.configs[..|st.configs|] == st.configs;
  }

  method ProcessBody(body: string, st: Settings, sort: seq<Insertion> -> seq<Insertion>)
    returns (result: string)
    requires Sorts(sort)
    ensures Insertable(body, Collected(body, st)) && Placed(body, st, Collected(body, st))
    ensures result == Result(body, Collected(body, st), sort(Collected(body, st)))
  {
    CollectedInsertable(body, st);
    var insertions := Collect(body, st);
    result := body;
    if insertions != [] {
      result := ApplyAllInsertions(body, insertions, sort);
    } else {
      assert SortOf(sort(insertions), insertions);
      SameMembers(sort(insertions), insertions);
    }
  }

  // ---- Every position is in range when it is used ----

  predicate Insertable(body: string, es: seq<Insertion>) {
    forall e | e in es :: e.length == 0 && e.pos <= |body|
  }

  lemma {:induction false} AdsInsertable(body: string, ads: seq<(string, AdConfig)>, html: (string, AdConfig) -> string)
    ensures Insertable(body, PrepareAds(body, ads, html))
  {
    if ads != [] {
      AdsInsertable(body, ads[1..], html);
    }
  }

  lemma CollectedInsertable(body: string, st: Settings)
    ensures Insertable(body, Collected(body, st))
  {
    AdsInsertable(body, st.configs, st.html);
  }

  lemma SameMembers<A>(a: seq<A>, b: seq<A>)
    requires multiset(a) == multiset(b)
    ensures |a| == |b|
    ensures forall x :: x in a <==> x in b
  {
    assert |multiset(a)| == |a| && |multiset(b)| == |b|;
    forall x
      ensures x in a <==> x in b
    {
      assert x in a <==> x in multiset(a);
      assert x in b <==> x in multiset(b);
    }
  }

  lemma {:induction false} DescendingReversed(body: string, es: seq<Insertion>)
    requires Descending(es) && Insertable(body, es)
    ensures Ascending(body, Reverse(es), 0) && Insertions(Reverse(es))
  {
    if es != [] {
      DescendingReversed(body, es[1..]);
      NoneBehind(es);
      AscendingConcat(body, Reverse(es[1..]), es[0], 0);
    }
  }

  lemma NoneBehind(es: seq<Insertion>)
    requires Descending(es) && es != [] && Insertions(Reverse(es[1..]))
    ensures forall x | x in Reverse(es[1..]) :: x.pos + x.length <= es[0].pos
  {
    ReverseMultiset(es[1..]);
    SameMembers(Reverse(es[1..]), es[1..]);
  }

  lemma SortedIsAscending(body: string, es: seq<Insertion>, sorted: seq<Insertion>)
    requires SortOf(sorted, es) && Insertable(body, es)
    ensures Ascending(body, Reverse(sorted), 0) && Insertions(Reverse(sorted))
  {
    SameMembers(sorted, es);
    DescendingReversed(body, sorted);
  }

  // ---- What the result is ----

  function Result(body: string, es: seq<Insertion>, sorted: seq<Insertion>): string
    requires SortOf(sorted, es) && Insertable(body, es)
  {
    SortedIsAscending(body, es, sorted);
    Rewrite(body, Reverse(sorted), 0)
  }

  // All snippets are inserted at their places in the original body at once.
  lemma InsertsSimultaneously(body: string, es: seq<Insertion>, sorted: seq<Insertion>)
    requires SortOf(sorted, es) && Insertable(body, es)
    ensures Result(body, es, sorted) ==
            Interleave(body, (p: nat) => TextsAt(Reverse(sorted), p), 0)
    ensures forall p: nat :: multiset(TextsAt(Reverse(sorted), p)) == multiset(TextsAt(es, p))
  {
    SortedIsAscending(body, es, sorted);
    InsertionsInterleave(body, Reverse(sorted), 0);
    ReverseMultiset(sorted);
    forall p: nat
      ensures multiset(TextsAt(Reverse(sorted), p)) == multiset(TextsAt(es, p))
    {
      TextsAtPermuted(Reverse(sorted), es, p);
    }
  }

  lemma {:induction false} TextsAtConcat(a: seq<Insertion>, b: seq<Insertion>, p: nat)
    ensures TextsAt(a + b, p) == TextsAt(a, p) + TextsAt(b, p)
  {
    if a == [] {
      WithEmpty(b);
    } else {
      TextsAtConcat(a[1..], b, p);
      TailOfConcat(a, b);
      var first := if a[0].pos == p then [a[0].text] else [];
      Associate(first, TextsAt(a[1..], p), TextsAt(b, p));
    }
  }

  lemma {:induction false} TextsAtPermuted(a: seq<Insertion>, b: seq<Insertion>, p: nat)
    requires multiset(a) == multiset(b)
    ensures multiset(TextsAt(a, p)) == multiset(TextsAt(b, p))
  {
    hide TextsAt;
    if a != [] {
      var x := [a[0]];
      var l, r := TakeOut(a, b);
      TextsAtPermuted(a[1..], l + r, p);
      TextsAtConcat(l, r, p);
      TextsAtConcat(l + x, r, p);
      TextsAtConcat(l, x, p);
      TextsAtConcat(x, a[1..], p);
      assert x + a[1..] == a;
      MultisetMiddle(TextsAt(x, p), TextsAt(a[1..], p), TextsAt(l, p), TextsAt(r, p));
    } else {
      assert |multiset(b)| == 0;
    }
  }

  lemma MultisetMiddle<A>(x: seq<A>, a: seq<A>, l: seq<A>, r: seq<A>)
    requires multiset(a) == multiset(l + r)
    ensures multiset(x + a) == multiset((l + x) + r)
  {
  }

  // The length is the body's and the snippets'.
  lemma ResultLength(body: string, es: seq<Insertion>, sorted: seq<Insertion>)
    requires SortOf(sorted, es) && Insertable(body, es)
    ensures |Result(body, es, sorted)| == |body| + TextLength(es)
  {
    SortedIsAscending(body, es, sorted);
    var r := Reverse(sorted);
    RewriteLength(body, r, 0);
    ReverseMultiset(sorted);
    LengthsPermuted(r, es);
    NothingCut(r);
  }

  lemma IndexIn(a: seq<Insertion>, b: seq<Insertion>, e: Insertion) returns (i: nat)
    requires multiset(a) == multiset(b) && e in b
    ensures i < |a| && a[i] == e
  {
    assert e in multiset(b);
    i :| 0 <= i < |a| && a[i] == e;
  }

  // Each snippet is there in one piece.
  lemma EverySnippetSurvives(body: string, es: seq<Insertion>, sorted: seq<Insertion>, e: Insertion)
    returns (o: nat)
    requires SortOf(sorted, es) && Insertable(body, es) && e in es
    ensures OccursAt(Result(body, es, sorted), e.text, o)
  {
    hide Ascending, Rewrite, Insertable, TextOffset, Reverse;
    SortedIsAscending(body, es, sorted);
    var r := Reverse(sorted);
    var i := PlaceOf(es, sorted, e);
    TextSurvives(body, r, 0, i);
    o := TextOffset(r, i);
  }

  lemma PlaceOf(es: seq<Insertion>, sorted: seq<Insertion>, e: Insertion) returns (i: nat)
    requires SortOf(sorted, es) && e in es
    ensures i < |Reverse(sorted)| && Reverse(sorted)[i] == e
  {
    ReverseMultiset(sorted);
    i := IndexIn(Reverse(sorted), es, e);
  }

  // ---- Snippets stand at their markers ----

  // e is put into es between l and r, and no other snippet comes near the stretch of the
  // body from a to b.
  predicate Alone(es: seq<Insertion>, l: seq<Insertion>, e: Insertion, r: seq<Insertion>, a: nat, b: nat) {
    && es == l + [e] + r && a <= e.pos <= b
    && forall x | x in l + r :: x.pos < a || b < x.pos
  }

  lemma {:induction false} SnippetInContext(
    body: string, es: seq<Insertion>, sorted: seq<Insertion>,
    l: seq<Insertion>, e: Insertion, r: seq<Insertion>, a: nat, b: nat)
    returns (o: nat)
    requires SortOf(sorted, es) && Insertable(body, es) && Alone(es, l, e, r, a, b) && b <= |body|
    ensures OccursAt(Result(body, es, sorted), body[a..e.pos] + e.text + body[e.pos..b], o)
  {
    hide Ascending, Rewrite, Reverse, Insertable;
    SortedIsAscending(body, es, sorted);
    assert e in es;
    var i := PlaceOf(es, sorted, e);
    var all := Reverse(sorted);
    NeighboursAreOthers(body, es, sorted, l, e, r, a, b, i);
    o := TextInContext(body, all, 0, i, a, b);
    ZeroLength(es, body, e);
  }

  lemma ZeroLength(es: seq<Insertion>, body: string, e: Insertion)
    requires Insertable(body, es) && e in es
    ensures e.length == 0
  {
  }

  lemma OthersAreOthers(
    all: seq<Insertion>, es: seq<Insertion>, l: seq<Insertion>, e: Insertion, r: seq<Insertion>, i: nat)
    requires multiset(all) == multiset(es) && es == l + [e] + r && i < |all| && all[i] == e
    ensures i > 0 ==> all[i - 1] in l + r
    ensures i + 1 < |all| ==> all[i + 1] in l + r
  {
    var others := all[..i] + all[i + 1..];
    TakenApart(all, i);
    MultisetWithout(all[..i], e, all[i + 1..]);
    MultisetWithout(l, e, r);
    SameMembers(others, l + r);
    assert i > 0 ==> others[i - 1] == all[i - 1];
    assert i + 1 < |all| ==> others[i] == all[i + 1];
  }

  lemma NeighboursAreOthers(
    body: string, es: seq<Insertion>, sorted: seq<Insertion>,
    l: seq<Insertion>, e: Insertion, r: seq<Insertion>, a: nat, b: nat, i: nat)
    requires SortOf(sorted, es) && Insertable(body, es) && Alone(es, l, e, r, a, b)
    requires i < |Reverse(sorted)| && Reverse(sorted)[i] == e
    ensures var all := Reverse(sorted);
            && (i > 0 ==> all[i - 1].pos + all[i - 1].length <= a)
            && (i + 1 < |all| ==> b <= all[i + 1].pos)
  {
    hide Ascending, Reverse, Insertable, Insertions, Descending;
    var all := Reverse(sorted);
    ReverseMultiset(sorted);
    OthersAreOthers(all, es, l, e, r, i);
    SortedIsAscending(body, es, sorted);
    if i > 0 {
      InOrder(body, all, 0, i - 1);
    }
    if i + 1 < |all| {
      InOrder(body, all, 0, i);
      ZeroLength(es, body, e) by {
        assert e in es;
      }
    }
  }

  lemma {:induction false} InOrder(body: string, es: seq<Insertion>, from: nat, i: nat)
    requires Ascending(body, es, from) && i + 1 < |es|
    ensures es[i].pos + es[i].length <= es[i + 1].pos
  {
    if i > 0 {
      InOrder(body, es[1..], es[0].pos + es[0].length, i - 1);
    }
  }

  // In the body that goes out, an ad stands directly in front of its marker or directly
  // behind it, unless another snippet belongs to the same place.
  lemma AdStandsAtItsMarker(
    body: string, st: Settings, sorted: seq<Insertion>,
    l: seq<Insertion>, e: Insertion, r: seq<Insertion>, ad: (string, AdConfig), p: nat)
    returns (o: nat)
    requires SortOf(sorted, Collected(body, st)) && AdPlaced(body, ad, st.html, e)
    requires FirstAt(body, ad.1.marker, p) && Alone(Collected(body, st), l, e, r, p, p + |ad.1.marker|)
    ensures Insertable(body, Collected(body, st))
    ensures var markup, marker := st.html(ad.0, ad.1), ad.1.marker;
            OccursAt(Result(body, Collected(body, st), sorted),
                     if ad.1.insertBefore then markup + marker else marker + markup, o)
  {
    hide Collected, SortOf, Insertable, Alone;
    CollectedInsertable(body, st);
    var marker := ad.1.marker;
    var q := if ad.1.insertBefore then e.pos else e.pos - |marker|;
    assert q == p;
    o := SnippetInContext(body, Collected(body, st), sorted, l, e, r, p, p + |marker|);
    WithEmpty(st.html(ad.0, ad.1));
    WithEmpty(marker + st.html(ad.0, ad.1));
    WithEmpty(st.html(ad.0, ad.1) + marker);
    assert body[p..p] == [] && body[p + |marker|..p + |marker|] == [];
  }

  // The whole body for a single ad.
  lemma SingleAd(body: string, ad: (string, AdConfig), html: (string, AdConfig) -> string, sorted: seq<Insertion>)
    requires SortOf(sorted, Collected(body, Settings(false, "", [ad], html)))
    ensures Insertable(body, Collected(body, Settings(false, "", [ad], html)))
    ensures var out, marker := Result(body, Collected(body, Settings(false, "", [ad], html)), sorted), ad.1.marker;
            if Has(body, marker) then
              exists p :: 0 <= p <= |body| && FirstAt(body, marker, p) &&
                out == body[..p] +
                       (if ad.1.insertBefore then html(ad.0, ad.1) + marker else marker + html(ad.0, ad.1)) +
                       body[p + |marker|..]
            else out == body
  {
    hide SortOf, Find, Has, Collected, Reverse;
    var marker, text, es := ad.1.marker, html(ad.0, ad.1), Collected(body, Settings(false, "", [ad], html));
    CollectedInsertable(body, Settings(false, "", [ad], html));
    FindIsFirst(body, marker);
    CollectedSingle(body, ad, html);
    SortOfFew(sorted, es);
    ReverseFew(es);
    if Has(body, marker) {
      var p := Find(body, marker).value;
      RewriteOne(body, es[0]);
      AroundMarker(body, marker, text, p);
    }
  }

  lemma CollectedSingle(body: string, ad: (string, AdConfig), html: (string, AdConfig) -> string)
    ensures Collected(body, Settings(false, "", [ad], html)) ==
            match Find(body, ad.1.marker)
            case None => []
            case Some(p) => [Edit(if ad.1.insertBefore then p else p + |ad.1.marker|, 0, html(ad.0, ad.1))]
  {
    hide Find;
    assert [ad][1..] == [];
    WithEmpty(PrepareAd(body, ad, html));
    assert PrepareAds(body, [ad], html) == PrepareAd(body, ad, html) + [];
  }

  lemma ReverseFew<T>(s: seq<T>)
    requires |s| <= 1
    ensures Reverse(s) == s
  {
  }

  lemma AroundMarker(body: string, marker: string, text: string, p: nat)
    requires OccursAt(body, marker, p)
    ensures body[..p] + text + body[p..] == body[..p] + (text + marker) + body[p + |marker|..]
    ensures body[..p + |marker|] + text + body[p + |marker|..] ==
            body[..p] + (marker + text) + body[p + |marker|..]
  {
    assert body[p..] == marker + body[p + |marker|..];
    assert body[..p + |marker|] == body[..p] + marker;
  }

  lemma SortOfFew(sorted: seq<Insertion>, es: seq<Insertion>)
    requires SortOf(sorted, es) && |es| <= 1
    ensures sorted == es
  {
    SameMembers(sorted, es);
    if es != [] {
      assert sorted[0] in es;
    }
  }

  lemma RewriteOne(body: string, e: Insertion)
    requires e.length == 0 && e.pos <= |body|
    ensures Ascending(body, [e], 0) && Rewrite(body, [e], 0) == body[..e.pos] + e.text + body[e.pos..]
  {
    assert [e][1..] == [];
  }

  // ---- Taking the snippets out again ----

  // A character with the mark of where it comes from: true for the body.
  type Marked = (char, bool)

  function Mark(s: string, m: bool): seq<Marked> {
    if s == [] then [] else [(s[0], m)] + Mark(s[1..], m)
  }

  function Unmark(s: seq<Marked>): string {
    if s == [] then [] else [s[0].0] + Unmark(s[1..])
  }

  function MarkTexts(es: seq<Insertion>): seq<Edit<Marked>> {
    if es == [] then []
    else [Edit(es[0].pos, es[0].length, Mark(es[0].text, false))] + MarkTexts(es[1..])
  }

  lemma {:induction false} MarkFacts(s: string, m: bool)
    ensures |Mark(s, m)| == |s| && Unmark(Mark(s, m)) == s
    ensures forall x | x in Mark(s, m) :: x.1 == m
  {
    if s != [] {
      MarkFacts(s[1..], m);
    }
  }

  lemma {:induction false} MarkAt(s: string, m: bool)
    ensures |Mark(s, m)| == |s| && forall k | 0 <= k < |s| :: Mark(s, m)[k] == (s[k], m)
  {
    if s != [] {
      MarkAt(s[1..], m);
    }
  }

  lemma MarkSlice(s: string, m: bool, i: nat, j: nat)
    requires i <= j <= |s|
    ensures |Mark(s, m)| == |s| && Mark(s, m)[i..j] == Mark(s[i..j], m)
  {
    hide Mark;
    MarkAt(s, m);
    MarkAt(s[i..j], m);
  }

  lemma {:induction false} UnmarkConcat(s: seq<Marked>, t: seq<Marked>)
    ensures Unmark(s + t) == Unmark(s) + Unmark(t)
  {
    if s == [] {
      WithEmpty(t);
    } else {
      UnmarkConcat(s[1..], t);
      TailOfConcat(s, t);
      Associate([s[0].0], Unmark(s[1..]), Unmark(t));
    }
  }

  lemma {:induction false} MarkedRewrite(body: string, es: seq<Insertion>, from: nat)
    requires Ascending(body, es, from)
    ensures Ascending(Mark(body, true), MarkTexts(es), from)
    ensures Unmark(Rewrite(Mark(body, true), MarkTexts(es), from)) == Rewrite(body, es, from)
  {
    hide Rewrite, Mark, Unmark, MarkTexts, Ascending;
    MarkFacts(body, true);
    if es == [] {
      MarkedCopy(body, from);
    } else {
      FirstEdit(body, es, from);
      MarkFirst(es);
      var e := es[0];
      var next := e.pos + e.length;
      MarkedRewrite(body, es[1..], next);
      AscendingStep(Mark(body, true), MarkTexts(es), from);
      FirstEdit(Mark(body, true), MarkTexts(es), from);
      MarkSlice(body, true, from, e.pos);
      MarkFacts(body[from..e.pos], true);
      MarkFacts(e.text, false);
      var a, text := Mark(body, true)[from..e.pos], Mark(e.text, false);
      UnmarkConcat(a, text);
      UnmarkConcat(a + text, Rewrite(Mark(body, true), MarkTexts(es[1..]), next));
    }
  }

  lemma MarkedCopy(body: string, from: nat)
    requires Ascending(body, [], from)
    ensures MarkTexts([]) == [] && Ascending(Mark(body, true), [], from)
    ensures Unmark(Rewrite(Mark(body, true), [], from)) == Rewrite(body, [], from)
  {
    hide Mark, Unmark;
    MarkSlice(body, true, from, |body|);
    MarkFacts(body[from..], true);
    assert body[from..|body|] == body[from..];
    assert Mark(body, true)[from..|body|] == Mark(body, true)[from..];
  }

  lemma MarkFirst(es: seq<Insertion>)
    requires es != []
    ensures var ms := MarkTexts(es);
            ms != [] && ms[0] == Edit(es[0].pos, es[0].length, Mark(es[0].text, false)) &&
            ms[1..] == MarkTexts(es[1..])
  {
  }

  lemma AscendingStep<T>(body: seq<T>, es: seq<Edit<T>>, from: nat)
    requires es != [] && from <= es[0].pos && Ascending(body, es[1..], es[0].pos + es[0].length)
    ensures Ascending(body, es, from)
  {
  }

  lemma {:induction false} MarkedInsertions(es: seq<Insertion>)
    requires Insertions(es)
    ensures |MarkTexts(es)| == |es| && Insertions(MarkTexts(es))
    ensures forall i | 0 <= i < |es| :: Unmarked(MarkTexts(es)[i].text, (x: Marked) => x.1)
  {
    if es != [] {
      InsertionsTail(es);
      MarkedInsertions(es[1..]);
      MarkFacts(es[0].text, false);
    }
  }

  // The same rewriting where every character remembers whether it comes from the body.
  function MarkedResult(body: string, es: seq<Insertion>, sorted: seq<Insertion>): seq<Marked>
    requires SortOf(sorted, es) && Insertable(body, es)
  {
    SortedIsAscending(body, es, sorted);
    MarkedRewrite(body, Reverse(sorted), 0);
    Rewrite(Mark(body, true), MarkTexts(Reverse(sorted)), 0)
  }

  // The characters of the result that come from the body are the body.
  lemma DeletingSnippetsRestores(body: string, es: seq<Insertion>, sorted: seq<Insertion>)
    requires SortOf(sorted, es) && Insertable(body, es)
    ensures Unmark(MarkedResult(body, es, sorted)) == Result(body, es, sorted)
    ensures Unmark(Keep(MarkedResult(body, es, sorted), (x: Marked) => x.1)) == body
  {
    SortedIsAscending(body, es, sorted);
    var r := Reverse(sorted);
    MarkedRewrite(body, r, 0);
    MarkedInsertions(r);
    MarkFacts(body, true);
    DeletingTextRestores(Mark(body, true), MarkTexts(r), 0, (x: Marked) => x.1);
  }

  lemma {:induction false} NothingCut(es: seq<Insertion>)
    requires Insertions(es)
    ensures CutLength(es) == 0
  {
    if es != [] {
      InsertionsTail(es);
      NothingCut(es[1..]);
    }
  }

  lemma {:induction false} TextLengthConcat(a: seq<Insertion>, b: seq<Insertion>)
    ensures TextLength(a + b) == TextLength(a) + TextLength(b)
  {
    if a == [] {
      WithEmpty(b);
    } else {
      TextLengthConcat(a[1..], b);
      TailOfConcat(a, b);
    }
  }

  lemma {:induction false} LengthsPermuted(a: seq<Insertion>, b: seq<Insertion>)
    requires multiset(a) == multiset(b)
    ensures TextLength(a) == TextLength(b)
  {
    if a != [] {
      var l, r := TakeOut(a, b);
      LengthsPermuted(a[1..], l + r);
      TextLengthConcat(l, r);
      TextLengthConcat(l + [a[0]], r);
      TextLengthConcat(l, [a[0]]);
      TextLengthConcat([a[0]], a[1..]);
      assert [a[0]] + a[1..] == a;
    } else {
      assert |multiset(b)| == 0;
    }
  }

  // ---- The order of collection ----

  predicate DistinctPlaces(es: seq<Insertion>) {
    forall i, j | 0 <= i < j < |es| :: es[i].pos != es[j].pos
  }

  // With one snippet a place, neither the order of the map nor the sort matters.
  lemma OrderIsIrrelevant(
    body: string, es1: seq<Insertion>, sorted1: seq<Insertion>, es2: seq<Insertion>, sorted2: seq<Insertion>)
    requires SortOf(sorted1, es1) && SortOf(sorted2, es2)
    requires Insertable(body, es1) && Insertable(body, es2)
    requires multiset(es1) == multiset(es2) && DistinctPlaces(es1)
    ensures Result(body, es1, sorted1) == Result(body, es2, sorted2)
  {
    InsertsSimultaneously(body, es1, sorted1);
    InsertsSimultaneously(body, es2, sorted2);
    var f := (p: nat) => TextsAt(Reverse(sorted1), p);
    var g := (p: nat) => TextsAt(Reverse(sorted2), p);
    forall p: nat
      ensures f(p) == g(p)
    {
      TextsAtPermuted(es1, es2, p);
      AtMostOne(es1, p);
      SameSingle(f(p), g(p), TextsAt(es1, p));
    }
    InterleaveSame(body, f, g, 0);
  }

  lemma SameSingle<A>(a: seq<A>, b: seq<A>, c: seq<A>)
    requires multiset(a) == multiset(b) == multiset(c) && |c| <= 1
    ensures a == b
  {
    SameMembers(a, c);
    SameMembers(b, c);
    if c != [] {
      assert a[0] in c && b[0] in c;
    }
  }

  lemma {:induction false} AtMostOne(es: seq<Insertion>, p: nat)
    requires DistinctPlaces(es)
    ensures |TextsAt(es, p)| <= 1
    ensures (forall e | e in es :: e.pos != p) ==> TextsAt(es, p) == []
  {
    if es != [] {
      AtMostOne(es[1..], p);
    }
  }

  // With ties, only the order of snippets at the same place can differ.
  lemma TiesReorderOnly(
    body: string, es1: seq<Insertion>, sorted1: seq<Insertion>, es2: seq<Insertion>, sorted2: seq<Insertion>)
    requires SortOf(sorted1, es1) && SortOf(sorted2, es2)
    requires Insertable(body, es1) && Insertable(body, es2)
    requires multiset(es1) == multiset(es2)
    ensures Result(body, es1, sorted1) == Interleave(body, (p: nat) => TextsAt(Reverse(sorted1), p), 0)
    ensures Result(body, es2, sorted2) == Interleave(body, (p: nat) => TextsAt(Reverse(sorted2), p), 0)
    ensures forall p: nat ::
              multiset(TextsAt(Reverse(sorted1), p)) == multiset(TextsAt(Reverse(sorted2), p))
  {
    InsertsSimultaneously(body, es1, sorted1);
    InsertsSimultaneously(body, es2, sorted2);
    forall p: nat
      ensures multiset(TextsAt(Reverse(sorted1), p)) == multiset(TextsAt(Reverse(sorted2), p))
    {
      TextsAtPermuted(es1, es2, p);
    }
  }

  // The maps' iteration orders hand out the same insertions.
  lemma {:induction false} AdsPermuted(
    body: string, a: seq<(string, AdConfig)>, b: seq<(string, AdConfig)>, html: (string, AdConfig) -> string)
    requires multiset(a) == multiset(b)
    ensures multiset(PrepareAds(body, a, html)) == multiset(PrepareAds(body, b, html))
  {
    hide PrepareAd;
    if a != [] {
      var l, r := TakeOut(a, b);
      AdsPermuted(body, a[1..], l + r, html);
      AdsConcat(body, l, r, html);
      AdsConcat(body, l + [a[0]], r, html);
      AdsConcat(body, l, [a[0]], html);
      AdsConcat(body, [a[0]], a[1..], html);
      assert [a[0]] + a[1..] == a;
    } else {
      assert |multiset(b)| == 0;
    }
  }

  lemma {:induction false} AdsConcat(
    body: string, a: seq<(string, AdConfig)>, b: seq<(string, AdConfig)>, html: (string, AdConfig) -> string)
    ensures PrepareAds(body, a + b, html) == PrepareAds(body, a, html) + PrepareAds(body, b, html)
  {
    hide PrepareAd;
    if a == [] {
      WithEmpty(b);
    } else {
      AdsConcat(body, a[1..], b, html);
      TailOfConcat(a, b);
      Associate(PrepareAd(body, a[0], html), PrepareAds(body, a[1..], html), PrepareAds(body, b, html));
    }
  }

  lemma BodyIndependentOfMapOrder(
    body: string, st1: Settings, sorted1: seq<Insertion>, st2: Settings, sorted2: seq<Insertion>)
    requires st2 == st1.(configs := st2.configs) && multiset(st1.configs) == multiset(st2.configs)
    requires SortOf(sorted1, Collected(body, st1)) && SortOf(sorted2, Collected(body, st2))
    requires DistinctPlaces(Collected(body, st1))
    ensures Insertable(body, Collected(body, st1)) && Insertable(body, Collected(body, st2))
    ensures Result(body, Collected(body, st1), sorted1) == Result(body, Collected(body, st2), sorted2)
  {
    CollectedInsertable(body, st1);
    CollectedInsertable(body, st2);
    AdsPermuted(body, st1.configs, st2.configs, st1.html);
    OrderIsIrrelevant(body, Collected(body, st1), sorted1, Collected(body, st2), sorted2);
  }

  // ---- A stable sort leaves nothing open ----

  // sorted keeps insertions at the same place in the order of es.
  ghost predicate StableSortOf(sorted: seq<Insertion>, es: seq<Insertion>) {
    SortOf(sorted, es) && forall p: nat :: TextsAt(sorted, p) == TextsAt(es, p)
  }

  // Snippets at the same place then appear in the reverse of their collection order.
  lemma StableReversesTies(body: string, es: seq<Insertion>, sorted: seq<Insertion>)
    requires StableSortOf(sorted, es) && Insertable(body, es)
    ensures Result(body, es, sorted) ==
            Interleave(body, (p: nat) => Reverse(TextsAt(es, p)), 0)
  {
    InsertsSimultaneously(body, es, sorted);
    var f := (p: nat) => TextsAt(Reverse(sorted), p);
    var g := (p: nat) => Reverse(TextsAt(es, p));
    forall p: nat
      ensures f(p) == g(p)
    {
      TextsAtReversed(sorted, p);
    }
    InterleaveSame(body, f, g, 0);
  }

  lemma {:induction false} TextsAtReversed(es: seq<Insertion>, p: nat)
    ensures TextsAt(Reverse(es), p) == Reverse(TextsAt(es, p))
  {
    if es != [] {
      TextsAtReversed(es[1..], p);
      TextsAtConcat(Reverse(es[1..]), [es[0]], p);
      TextsAtConcat([es[0]], es[1..], p);
      assert [es[0]] + es[1..] == es;
      var one := TextsAt([es[0]], p);
      assert TextsAt([es[0]][1..], p) == [];
      assert Reverse(one) == one;
      ReverseConcat(one, TextsAt(es[1..], p));
    }
  }
}
