// White space, separators and cookie pairs, as the cookie manager reads them.
module CookieText {
  import opened Sequences

  // ASCII white space.
  predicate IsSpace(c: char) {
    c == ' ' || 9 as char <= c <= 13 as char
  }

  function StripLeft(s: string): string {
    if s != "" && IsSpace(s[0]) then StripLeft(s[1..]) else s
  }

  function StripRight(s: string): string {
    if s != "" && IsSpace(s[|s| - 1]) then StripRight(s[..|s| - 1]) else s
  }

  function Strip(s: string): string {
    StripRight(StripLeft(s))
  }

  // No white space at either end.
  predicate Stripped(s: string) {
    s != "" ==> !IsSpace(s[0]) && !IsSpace(s[|s| - 1])
  }

  lemma {:induction false} StripLeftSuffix(s: string)
    ensures |StripLeft(s)| <= |s| && StripLeft(s) == s[|s| - |StripLeft(s)|..]
    ensures StripLeft(s) != "" ==> !IsSpace(StripLeft(s)[0])
  {
    if s != "" && IsSpace(s[0]) {
      StripLeftSuffix(s[1..]);
    }
  }

  lemma {:induction false} StripRightPrefix(s: string)
    ensures |StripRight(s)| <= |s| && StripRight(s) == s[..|StripRight(s)|]
    ensures StripRight(s) != "" ==> !IsSpace(StripRight(s)[|StripRight(s)| - 1])
  {
    if s != "" && IsSpace(s[|s| - 1]) {
      StripRightPrefix(s[..|s| - 1]);
    }
  }

  // Stripping gives a stripped piece of the text.
  lemma StripIsStripped(s: string) returns (i: nat)
    ensures i + |Strip(s)| <= |s| && Strip(s) == s[i..i + |Strip(s)|]
    ensures Stripped(Strip(s))
  {
    StripLeftSuffix(s);
    StripRightPrefix(StripLeft(s));
    i := |s| - |StripLeft(s)|;
  }

  lemma StripKeepsStripped(s: string)
    requires Stripped(s)
    ensures StripLeft(s) == s && Strip(s) == s
  {
  }

  lemma StripAfterSpace(s: string)
    requires Stripped(s)
    ensures Strip(" " + s) == s
  {
    assert (" " + s)[1..] == s;
    StripKeepsStripped(s);
  }

  // The position of the first c, or |s|.
  function IndexOf(s: string, c: char): (i: nat)
    ensures i <= |s| && (i < |s| ==> s[i] == c)
    ensures c !in s[..i]
  {
    if s == "" || s[0] == c then 0 else 1 + IndexOf(s[1..], c)
  }

  lemma {:induction false} IndexBehind(a: string, c: char, b: string)
    requires c !in a
    ensures IndexOf(a + [c] + b, c) == |a|
    ensures IndexOf(a, c) == |a|
  {
    var s := a + [c] + b;
    if a != "" {
      IndexBehind(a[1..], c, b);
      assert s[1..] == a[1..] + [c] + b && s[0] == a[0];
    }
  }

  type Cookie = (string, string)

  // One piece of a Cookie header: white space around it, its name and its value is
  // dropped, and so is a piece without an equals sign.
  function ParsePiece(piece: string): seq<Cookie> {
    var pair := Strip(piece);
    var i := IndexOf(pair, '=');
    if i == |pair| then [] else [(Strip(pair[..i]), Strip(pair[i + 1..]))]
  }

  function ParsePieces(pieces: seq<string>): seq<Cookie> {
    if pieces == [] then [] else ParsePiece(pieces[0]) + ParsePieces(pieces[1..])
  }

  function Parse(header: string): seq<Cookie> {
    ParsePieces(Split(header, ';'))
  }

  function Print(c: Cookie): string {
    c.0 + "=" + c.1
  }

  function Printed(cookies: seq<Cookie>): seq<string> {
    seq(|cookies|, i requires 0 <= i < |cookies| => Print(cookies[i]))
  }

  function Rebuild(cookies: seq<Cookie>): string {
    Join(Printed(cookies), "; ")
  }

  // What parsing can produce.
  predicate Parsable(c: Cookie) {
    Stripped(c.0) && Stripped(c.1) && '=' !in c.0 && ';' !in c.0 && ';' !in c.1
  }

  predicate AllParsable(cookies: seq<Cookie>) {
    forall i | 0 <= i < |cookies| :: Parsable(cookies[i])
  }

  lemma ParsedPieceParsable(piece: string)
    requires ';' !in piece
    ensures AllParsable(ParsePiece(piece))
  {
    hide Strip;
    var pair := Strip(piece);
    var k := StripIsStripped(piece);
    assert ';' !in pair;
    var i := IndexOf(pair, '=');
    if i < |pair| {
      var n := StripIsStripped(pair[..i]);
      var v := StripIsStripped(pair[i + 1..]);
      assert Parsable((Strip(pair[..i]), Strip(pair[i + 1..])));
    }
  }

  lemma {:induction false} PiecesParsable(pieces: seq<string>)
    requires forall piece | piece in pieces :: ';' !in piece
    ensures AllParsable(ParsePieces(pieces))
  {
    if pieces != [] {
      ParsedPieceParsable(pieces[0]);
      PiecesParsable(pieces[1..]);
    }
  }

  lemma ParsedIsParsable(header: string)
    ensures AllParsable(Parse(header))
  {
    SplitParts(header, ';');
    PiecesParsable(Split(header, ';'));
  }

  lemma ParsePrinted(c: Cookie)
    requires Parsable(c)
    ensures ParsePiece(Print(c)) == [c] && ParsePiece(" " + Print(c)) == [c]
  {
    var s := Print(c);
    assert s == c.0 + ['='] + c.1;
    assert Stripped(s) by {
      assert s[0] == if c.0 == "" then '=' else c.0[0];
      assert s[|s| - 1] == if c.1 == "" then '=' else c.1[|c.1| - 1];
    }
    StripKeepsStripped(s);
    StripAfterSpace(s);
    IndexBehind(c.0, '=', c.1);
    assert s[..|c.0|] == c.0 && s[|c.0| + 1..] == c.1;
    StripKeepsStripped(c.0);
    StripKeepsStripped(c.1);
  }

  // ---- What the parser finds in any header ----

  lemma {:induction false} PiecesConcat(a: seq<string>, b: seq<string>)
    ensures ParsePieces(a + b) == ParsePieces(a) + ParsePieces(b)
  {
    hide ParsePiece;
    if a == [] {
      WithEmpty(b);
    } else {
      PiecesConcat(a[1..], b);
      TailOfConcat(a, b);
      Associate(ParsePiece(a[0]), ParsePieces(a[1..]), ParsePieces(b));
    }
  }

  // Semicolons part the header, wherever they stand.
  lemma ParseConcat(a: string, b: string)
    ensures Parse(a + ";" + b) == Parse(a) + Parse(b)
  {
    hide ParsePieces;
    SplitConcat(a, ';', b);
    PiecesConcat(Split(a, ';'), Split(b, ';'));
  }

  // A piece without an equals sign is no cookie.
  lemma NoEqualsNoCookie(piece: string)
    requires '=' !in piece && ';' !in piece
    ensures Parse(piece) == []
  {
    hide Strip, Parse;
    ParseOne(piece);
    var i := StripIsStripped(piece);
    assert '=' !in Strip(piece);
  }

  lemma ParseOne(piece: string)
    requires ';' !in piece
    ensures Parse(piece) == ParsePiece(piece)
  {
    hide ParsePiece, Split;
    SplitFirst(piece, ';', "");
    ParseFirst(piece, []);
    ParseNothing();
    WithEmpty([piece]);
    WithEmpty(ParsePiece(piece));
  }

  lemma SpacesAre(c: char)
    ensures IsSpace(c) <==> c as int in {9, 10, 11, 12, 13, 32}
  {
  }

  predicate Blank(s: string) {
    forall c | c in s :: IsSpace(c)
  }

  lemma {:induction false} StripLeftBlank(blank: string, s: string)
    requires Blank(blank) && (s == "" || !IsSpace(s[0]))
    ensures StripLeft(blank + s) == s
  {
    hide IsSpace;
    if blank == "" {
      WithEmpty(s);
    } else {
      StripLeftBlank(blank[1..], s);
      TailOfConcat(blank, s);
    }
  }

  lemma {:induction false} StripRightBlank(s: string, blank: string)
    requires Blank(blank) && (s == "" || !IsSpace(s[|s| - 1]))
    ensures StripRight(s + blank) == s
    decreases |blank|
  {
    hide IsSpace;
    if blank == "" {
      WithEmpty(s);
    } else {
      StripRightBlank(s, blank[..|blank| - 1]);
      assert (s + blank)[..|s + blank| - 1] == s + blank[..|blank| - 1];
    }
  }

  lemma StripBlank(front: string, s: string, back: string)
    requires Blank(front) && Blank(back) && Stripped(s)
    ensures Strip(front + s + back) == s
  {
    hide StripLeft, StripRight, Blank;
    Associate(front, s, back);
    if s == "" {
      AllBlank(front, back);
    } else {
      StripLeftBlank(front, s + back);
      StripRightBlank(s, back);
    }
  }

  lemma AllBlank(front: string, back: string)
    requires Blank(front) && Blank(back)
    ensures Strip(front + "" + back) == ""
  {
    var s := front + "" + back;
    StripLeftBlank(s, "");
    WithEmpty(s);
  }

  // A cookie is found with any white space around its name and its value.
  lemma CookieIsFound(w0: string, name: string, w1: string, w2: string, value: string, w3: string)
    requires Blank(w0) && Blank(w1) && Blank(w2) && Blank(w3)
    requires Stripped(name) && Stripped(value) && '=' !in name && ';' !in name && ';' !in value
    ensures Parse(w0 + name + w1 + "=" + w2 + value + w3) == [(name, value)]
  {
    hide Strip, Parse, Blank, Stripped, ParsePiece;
    var lead, front := LeftOfEquals(w0, name, w1);
    var back, trail := RightOfEquals(w2, value, w3);
    var piece := lead + (front + "=" + back) + trail;
    assert w0 + name + w1 + "=" + w2 + value + w3 == (w0 + name + w1) + "=" + (w2 + value + w3) == piece;
    assert ';' !in piece;
    ParseOne(piece);
    PairIsParsed(lead, front, back, trail);
  }

  lemma PairIsParsed(lead: string, front: string, back: string, trail: string)
    requires Blank(lead) && Blank(trail) && '=' !in front
    requires front != "" ==> !IsSpace(front[0])
    requires back != "" ==> !IsSpace(back[|back| - 1])
    ensures ParsePiece(lead + (front + "=" + back) + trail) == [(Strip(front), Strip(back))]
  {
    hide Strip, Blank;
    var pair := front + "=" + back;
    assert Stripped(pair) by {
      assert pair[0] == if front == "" then '=' else front[0];
      assert pair[|pair| - 1] == if back == "" then '=' else back[|back| - 1];
    }
    StripBlank(lead, pair, trail);
    IndexBehind(front, '=', back);
    assert pair == front + ['='] + back && pair[..|front|] == front && pair[|front| + 1..] == back;
  }

  lemma LeftOfEquals(w0: string, name: string, w1: string) returns (lead: string, front: string)
    requires Blank(w0) && Blank(w1) && Stripped(name) && '=' !in name && ';' !in name
    ensures w0 + name + w1 == lead + front && Blank(lead) && ';' !in lead
    ensures '=' !in front && ';' !in front && Strip(front) == name && (front != "" ==> !IsSpace(front[0]))
  {
    hide Strip;
    NoneBlank(w0, w1);
    lead, front := if name == "" then w0 + w1 else w0, if name == "" then "" else name + w1;
    StripBlank("", name, if name == "" then "" else w1);
    assert "" + name + (if name == "" then "" else w1) == front;
  }

  lemma RightOfEquals(w2: string, value: string, w3: string) returns (back: string, trail: string)
    requires Blank(w2) && Blank(w3) && Stripped(value) && ';' !in value
    ensures w2 + value + w3 == back + trail && Blank(trail) && ';' !in trail
    ensures ';' !in back && Strip(back) == value && (back != "" ==> !IsSpace(back[|back| - 1]))
  {
    hide Strip;
    NoneBlank(w2, w3);
    back, trail := if value == "" then "" else w2 + value, if value == "" then w2 + w3 else w3;
    StripBlank(if value == "" then "" else w2, value, "");
    assert (if value == "" then "" else w2) + value + "" == back;
  }

  lemma NoneBlank(a: string, b: string)
    requires Blank(a) && Blank(b)
    ensures '=' !in a && ';' !in a && '=' !in b && ';' !in b && Blank(a + b)
  {
  }

  // Rebuilding and parsing again gives the same list, names and order and all.
  lemma RoundTrip(cookies: seq<Cookie>)
    requires cookies != [] && AllParsable(cookies)
    ensures Parse(Rebuild(cookies)) == cookies
  {
    ParseRebuilt("", cookies);
    assert "" + Rebuild(cookies) == Rebuild(cookies);
  }

  lemma ParseFirst(first: string, rest: seq<string>)
    ensures ParsePieces([first] + rest) == ParsePiece(first) + ParsePieces(rest)
  {
    assert ([first] + rest)[1..] == rest;
  }

  lemma FirstPiece(lead: string, c: Cookie)
    requires Parsable(c) && (lead == "" || lead == " ")
    ensures ';' !in lead + Print(c) && ParsePiece(lead + Print(c)) == [c]
  {
    ParsePrinted(c);
    assert "" + Print(c) == Print(c);
  }

  lemma SeparatorMoves(a: string, b: string, c: string)
    ensures a + (b + "; " + c) == (a + b) + [';'] + (" " + c)
  {
  }

  lemma RebuildStep(lead: string, cookies: seq<Cookie>)
    requires cookies != []
    ensures var first := lead + Print(cookies[0]);
            lead + Rebuild(cookies) ==
            if |cookies| == 1 then first else first + [';'] + (" " + Rebuild(cookies[1..]))
  {
    hide Print;
    if |cookies| > 1 {
      assert Printed(cookies)[1..] == Printed(cookies[1..]);
      SeparatorMoves(lead, Print(cookies[0]), Rebuild(cookies[1..]));
    }
  }

  lemma {:induction false} ParseRebuilt(lead: string, cookies: seq<Cookie>)
    requires cookies != [] && AllParsable(cookies) && (lead == "" || lead == " ")
    ensures ParsePieces(Split(lead + Rebuild(cookies), ';')) == cookies
    decreases |cookies|
  {
    hide ParsePiece, ParsePieces, Split, Print, Rebuild, Parsable;
    var c := cookies[0];
    var first := lead + Print(c);
    FirstPiece(lead, c);
    RebuildStep(lead, cookies);
    if |cookies| == 1 {
      SplitFirst(first, ';', "");
      ParseFirst(first, []);
      ParseNothing();
      assert [first] + [] == [first];
    } else {
      var rest := " " + Rebuild(cookies[1..]);
      ParseRebuilt(" ", cookies[1..]);
      SplitFirst(first, ';', rest);
      ParseFirst(first, Split(rest, ';'));
      assert cookies == [c] + cookies[1..];
    }
  }

  lemma ParseNothing()
    ensures ParsePieces([]) == []
  {
  }
}
