// What a user agent reads of the Set-Cookie values that the operations build: pairs
// parted by semicolons, as section 5.2 of RFC 6265 has it.
module CookieAttributes {
  import opened CookieManager
  import opened CookieText
  import opened Sequences
  import opened Wrappers

  // ---- The reader ----

  // A piece without an equals sign is a name with an empty value.
  function NameAndValue(piece: string): (string, string) {
    if ParsePiece(piece) == [] then (Strip(piece), "") else ParsePiece(piece)[0]
  }

  function NamesAndValues(pieces: seq<string>): seq<(string, string)> {
    if pieces == [] then [] else [NameAndValue(pieces[0])] + NamesAndValues(pieces[1..])
  }

  // The cookie, and then its attributes.
  function ReadSetCookie(value: string): seq<(string, string)> {
    NamesAndValues(Split(value, ';'))
  }

  function ReadDecimal(s: string): Option<nat> {
    if s == "" || !('0' <= s[|s| - 1] <= '9') then None
    else
      var last := s[|s| - 1] as int - '0' as int;
      if |s| == 1 then Some(last)
      else
        match ReadDecimal(s[..|s| - 1])
        case None => None
        case Some(n) => Some(10 * n + last)
  }

  lemma {:induction false} DecimalReadsBack(n: nat)
    ensures ReadDecimal(Decimal(n)) == Some(n)
    ensures forall c | c in Decimal(n) :: '0' <= c <= '9'
    ensures Decimal(n) != ""
  {
    if n >= 10 {
      DecimalReadsBack(n / 10);
      assert Decimal(n)[..|Decimal(n)| - 1] == Decimal(n / 10);
    }
  }

  // ---- A value, piece by piece ----

  function Appended(pieces: seq<string>): string {
    if pieces == [] then "" else "; " + pieces[0] + Appended(pieces[1..])
  }

  lemma {:induction false} AppendedConcat(a: seq<string>, b: seq<string>)
    ensures Appended(a + b) == Appended(a) + Appended(b)
  {
    if a == [] {
      WithEmpty(b);
      WithEmpty(Appended(b));
    } else {
      AppendedConcat(a[1..], b);
      TailOfConcat(a, b);
      Associate("; " + a[0], Appended(a[1..]), Appended(b));
    }
  }

  lemma AppendedOne(piece: string)
    ensures Appended([piece]) == "; " + piece
  {
    assert [piece][1..] == [];
    WithEmpty("; " + piece);
  }

  lemma SpaceInFront(piece: string)
    ensures NameAndValue(" " + piece) == NameAndValue(piece)
  {
    assert (" " + piece)[1..] == piece;
  }

  lemma {:induction false} ReadAppended(first: string, pieces: seq<string>)
    requires ';' !in first && forall piece | piece in pieces :: ';' !in piece
    ensures ReadSetCookie(first + Appended(pieces)) == [NameAndValue(first)] + NamesAndValues(pieces)
    decreases |pieces|
  {
    hide NameAndValue, Split;
    if pieces == [] {
      WithEmpty(first);
      SplitFirst(first, ';', "");
      TailOfCons(first, []);
      WithEmpty([first]);
      NothingToRead();
    } else {
      var next := " " + pieces[0];
      var rest := next + Appended(pieces[1..]);
      assert first + Appended(pieces) == first + [';'] + rest;
      SplitFirst(first, ';', rest);
      TailOfCons(first, Split(rest, ';'));
      ReadAppended(next, pieces[1..]);
      SpaceInFront(pieces[0]);
    }
  }

  lemma NothingToRead()
    ensures NamesAndValues([]) == []
  {
  }

  lemma {:induction false} NamesConcat(a: seq<string>, b: seq<string>)
    ensures NamesAndValues(a + b) == NamesAndValues(a) + NamesAndValues(b)
  {
    hide NameAndValue;
    if a == [] {
      WithEmpty(b);
      WithEmpty(NamesAndValues(b));
    } else {
      NamesConcat(a[1..], b);
      TailOfConcat(a, b);
      Associate([NameAndValue(a[0])], NamesAndValues(a[1..]), NamesAndValues(b));
    }
  }

  // ---- What the operations build ----

  // Text that can stand between the semicolons as it is.
  predicate Plain(s: string) {
    Stripped(s) && ';' !in s
  }

  predicate PlainConfig(c: Config) {
    Plain(c.name) && '=' !in c.name && Plain(c.value) && Plain(c.path) && Plain(c.domain)
  }

  // A list with x, if the condition holds.
  function If<T>(condition: bool, x: T): seq<T> {
    if condition then [x] else []
  }

  lemma AppendedIf(condition: bool, piece: string)
    ensures Appended(If(condition, piece)) == if condition then "; " + piece else ""
  {
    AppendedOne(piece);
  }

  predicate Expires(c: Config) {
    c.operation.Overwrite? && c.value == ""
  }

  function AgeOf(c: Config): string {
    "Max-Age=" + if c.maxAge > 0 then Decimal(c.maxAge) else ""
  }

  function Flags(c: Config): seq<string> {
    If(c.maxAge > 0, AgeOf(c)) + If(c.httpOnly, "HttpOnly") + If(c.secure, "Secure") +
    If(c.sameSiteStrict, "SameSite=Strict")
  }

  // The pieces behind the name and the value.
  function Pieces(c: Config): seq<string> {
    var domain := If(c.domain != "", "Domain=" + c.domain);
    if Expires(c) then ["Path=" + c.path, "Max-Age=0"] + domain else ["Path=" + c.path] + domain + Flags(c)
  }

  lemma AgeAppended(c: Config)
    ensures Appended(If(c.maxAge > 0, AgeOf(c))) == if c.maxAge > 0 then "; Max-Age=" + Decimal(c.maxAge) else ""
  {
    hide Appended, Decimal;
    AppendedIf(c.maxAge > 0, AgeOf(c));
    if c.maxAge > 0 {
      assert "; " + ("Max-Age=" + Decimal(c.maxAge)) == "; Max-Age=" + Decimal(c.maxAge);
    }
  }

  lemma FlagsAppended(c: Config)
    ensures Appended(Flags(c)) == Attributes(c)
  {
    hide Appended, Decimal, If, AgeOf;
    FourAppended(If(c.maxAge > 0, AgeOf(c)), If(c.httpOnly, "HttpOnly"), If(c.secure, "Secure"),
                 If(c.sameSiteStrict, "SameSite=Strict"));
    AgeAppended(c);
    FlagAppended(c.httpOnly, "HttpOnly", "; HttpOnly");
    FlagAppended(c.secure, "Secure", "; Secure");
    FlagAppended(c.sameSiteStrict, "SameSite=Strict", "; SameSite=Strict");
  }

  lemma FourAppended(a: seq<string>, b: seq<string>, c: seq<string>, d: seq<string>)
    ensures Appended(a + b + c + d) == Appended(a) + Appended(b) + Appended(c) + Appended(d)
  {
    hide Appended;
    AppendedConcat(a + b + c, d);
    AppendedConcat(a + b, c);
    AppendedConcat(a, b);
  }

  lemma FlagAppended(condition: bool, piece: string, text: string)
    requires |text| == |piece| + 2 && text[0] == ';' && text[1] == ' ' && text[2..] == piece
    ensures Appended(If(condition, piece)) == if condition then text else ""
  {
    hide Appended;
    AppendedIf(condition, piece);
    assert "; " + piece == text;
  }

  lemma DomainAppended(c: Config)
    ensures Appended(If(c.domain != "", "Domain=" + c.domain)) == Domain(c)
  {
    hide Appended;
    AppendedIf(c.domain != "", "Domain=" + c.domain);
    assert "; " + ("Domain=" + c.domain) == "; Domain=" + c.domain;
  }

  lemma PiecesAppended(c: Config)
    ensures Built(c) == Print((c.name, if Expires(c) then "" else c.value)) + Appended(Pieces(c))
  {
    hide Appended, Attributes, Flags, Domain, If, SetValue, ExpiredValue;
    if Expires(c) {
      ExpiredAppended(c);
    } else {
      SetAppended(c);
    }
  }

  lemma ExpiredAppended(c: Config)
    requires Expires(c)
    ensures ExpiredValue(c) == Print((c.name, "")) + Appended(Pieces(c))
  {
    hide Appended, Domain, If;
    var path, domain := "Path=" + c.path, If(c.domain != "", "Domain=" + c.domain);
    DomainAppended(c);
    AppendedOne(path);
    AppendedOne("Max-Age=0");
    AppendedConcat([path] + ["Max-Age=0"], domain);
    AppendedConcat([path], ["Max-Age=0"]);
    assert [path] + ["Max-Age=0"] == [path, "Max-Age=0"];
    assert ExpiredValue(c) == (c.name + "=") + (("; " + path) + ("; " + "Max-Age=0") + Domain(c));
  }

  lemma SetAppended(c: Config)
    requires !Expires(c)
    ensures SetValue(c) == Print((c.name, c.value)) + Appended(Pieces(c))
  {
    hide Appended, Attributes, Flags, Domain, If;
    var path, domain := "Path=" + c.path, If(c.domain != "", "Domain=" + c.domain);
    DomainAppended(c);
    FlagsAppended(c);
    AppendedOne(path);
    AppendedConcat([path] + domain, Flags(c));
    AppendedConcat([path], domain);
    assert SetValue(c) == (c.name + "=" + c.value) + (("; " + path) + Domain(c) + Attributes(c));
  }

  // ---- What is read ----

  lemma NamedPiece(name: string, value: string)
    requires Plain(name) && '=' !in name && Plain(value)
    ensures NameAndValue(name + "=" + value) == (name, value) && ';' !in name + "=" + value
  {
    ParsePrinted((name, value));
  }

  lemma BarePiece(name: string)
    requires Plain(name) && '=' !in name
    ensures NameAndValue(name) == (name, "")
  {
    StripKeepsStripped(name);
  }

  // No piece has a semicolon.
  predicate Parted(pieces: seq<string>) {
    forall piece | piece in pieces :: ';' !in piece
  }

  lemma PartedConcat(a: seq<string>, b: seq<string>)
    requires Parted(a) && Parted(b)
    ensures Parted(a + b)
  {
  }

  // If name is read of the piece, the list of the piece reads as the list of the name.
  lemma ReadIf(condition: bool, piece: string, read: (string, string))
    requires condition ==> NameAndValue(piece) == read && ';' !in piece
    ensures NamesAndValues(If(condition, piece)) == If(condition, read) && Parted(If(condition, piece))
  {
    hide NameAndValue;
    assert [piece][1..] == [];
    WithEmpty([NameAndValue(piece)]);
  }

  lemma AgeIsRead(c: Config)
    ensures var a := If(c.maxAge > 0, AgeOf(c));
            && Parted(a)
            && NamesAndValues(a) == If(c.maxAge > 0, ("Max-Age", if c.maxAge > 0 then Decimal(c.maxAge) else ""))
  {
    hide NamesAndValues, NameAndValue, Decimal, Stripped, Parted;
    if c.maxAge > 0 {
      NamesArePlain();
      DecimalIsPlain(c.maxAge);
      NamedPiece("Max-Age", Decimal(c.maxAge));
      assert "Max-Age" + "=" + Decimal(c.maxAge) == AgeOf(c);
    }
    ReadIf(c.maxAge > 0, AgeOf(c), ("Max-Age", if c.maxAge > 0 then Decimal(c.maxAge) else ""));
  }

  lemma ReadFlags(c: Config)
    ensures Parted(Flags(c))
    ensures NamesAndValues(Flags(c)) ==
            If(c.maxAge > 0, ("Max-Age", if c.maxAge > 0 then Decimal(c.maxAge) else "")) +
            If(c.httpOnly, ("HttpOnly", "")) + If(c.secure, ("Secure", "")) +
            If(c.sameSiteStrict, ("SameSite", "Strict"))
  {
    hide NamesAndValues, NameAndValue, Decimal, Stripped, If, AgeOf, Parted;
    var a, h, u, t := If(c.maxAge > 0, AgeOf(c)), If(c.httpOnly, "HttpOnly"), If(c.secure, "Secure"),
      If(c.sameSiteStrict, "SameSite=Strict");
    FlagsAreRead();
    AgeIsRead(c);
    ReadIf(c.httpOnly, "HttpOnly", ("HttpOnly", ""));
    ReadIf(c.secure, "Secure", ("Secure", ""));
    ReadIf(c.sameSiteStrict, "SameSite=Strict", ("SameSite", "Strict"));
    NamesConcat(a, h);
    NamesConcat(a + h, u);
    NamesConcat(a + h + u, t);
    PartedConcat(a, h);
    PartedConcat(a + h, u);
    PartedConcat(a + h + u, t);
  }

  lemma FlagsAreRead()
    ensures NameAndValue("HttpOnly") == ("HttpOnly", "") && ';' !in "HttpOnly"
    ensures NameAndValue("Secure") == ("Secure", "") && ';' !in "Secure"
    ensures NameAndValue("SameSite=Strict") == ("SameSite", "Strict") && ';' !in "SameSite=Strict"
    ensures NameAndValue("Max-Age=0") == ("Max-Age", "0") && ';' !in "Max-Age=0"
  {
    hide NameAndValue, Plain;
    NamesArePlain();
    BarePiece("HttpOnly");
    BarePiece("Secure");
    StrictIsRead();
    NoAgeIsRead();
    PlainHasNoSemicolon("HttpOnly");
    PlainHasNoSemicolon("Secure");
  }

  lemma PlainHasNoSemicolon(s: string)
    requires Plain(s)
    ensures ';' !in s
  {
  }

  lemma StrictIsRead()
    ensures NameAndValue("SameSite=Strict") == ("SameSite", "Strict") && ';' !in "SameSite=Strict"
  {
    hide NameAndValue, Plain;
    NamesArePlain();
    NamedPiece("SameSite", "Strict");
    assert "SameSite" + "=" + "Strict" == "SameSite=Strict";
  }

  lemma NoAgeIsRead()
    ensures NameAndValue("Max-Age=0") == ("Max-Age", "0") && ';' !in "Max-Age=0"
  {
    hide NameAndValue, Plain;
    NamesArePlain();
    NamedPiece("Max-Age", "0");
    assert "Max-Age" + "=" + "0" == "Max-Age=0";
  }

  lemma NamesArePlain()
    ensures forall s | s in ["HttpOnly", "Secure", "SameSite", "Strict", "Max-Age", "Path", "Domain"] ::
              Plain(s) && '=' !in s
    ensures Plain("0") && Plain("")
  {
  }

  lemma DecimalIsPlain(n: nat)
    ensures Plain(Decimal(n))
  {
    DecimalReadsBack(n);
    assert Decimal(n)[0] in Decimal(n) && Decimal(n)[|Decimal(n)| - 1] in Decimal(n);
  }

  // The cookie with its value, then the path, the domain if it is set, and the attributes
  // that are asked for; or, for an overwrite without a value, an age of zero.
  lemma BuiltReadsBack(c: Config)
    requires PlainConfig(c)
    ensures var domain := If(c.domain != "", ("Domain", c.domain));
            ReadSetCookie(Built(c)) ==
            if c.operation.Overwrite? && c.value == "" then [(c.name, ""), ("Path", c.path), ("Max-Age", "0")] + domain
            else
              [(c.name, c.value), ("Path", c.path)] + domain +
              (If(c.maxAge > 0, ("Max-Age", if c.maxAge > 0 then Decimal(c.maxAge) else "")) +
               If(c.httpOnly, ("HttpOnly", "")) + If(c.secure, ("Secure", "")) +
               If(c.sameSiteStrict, ("SameSite", "Strict")))
  {
    hide NamesAndValues, NameAndValue, Decimal, Stripped, ReadSetCookie, Appended, Flags, Built, AgeOf, If, Pieces;
    NamesArePlain();
    var value := if Expires(c) then "" else c.value;
    NamedPiece(c.name, value);
    PiecesAppended(c);
    ReadPieces(c);
    ReadAppended(Print((c.name, value)), Pieces(c));
  }

  lemma ReadPieces(c: Config)
    requires PlainConfig(c)
    ensures Parted(Pieces(c))
    ensures var domain := If(c.domain != "", ("Domain", c.domain));
            NamesAndValues(Pieces(c)) ==
            if Expires(c) then [("Path", c.path), ("Max-Age", "0")] + domain
            else
              [("Path", c.path)] + domain +
              (If(c.maxAge > 0, ("Max-Age", if c.maxAge > 0 then Decimal(c.maxAge) else "")) +
               If(c.httpOnly, ("HttpOnly", "")) + If(c.secure, ("Secure", "")) +
               If(c.sameSiteStrict, ("SameSite", "Strict")))
  {
    hide NamesAndValues, NameAndValue, Decimal, Stripped, Flags, AgeOf, If, Parted;
    var path, domain := "Path=" + c.path, If(c.domain != "", "Domain=" + c.domain);
    PathAndDomain(c);
    FlagsAreRead();
    OnePiece(path, ("Path", c.path));
    if Expires(c) {
      OnePiece("Max-Age=0", ("Max-Age", "0"));
      NamesConcat([path], ["Max-Age=0"]);
      PartedConcat([path], ["Max-Age=0"]);
      assert [path] + ["Max-Age=0"] == [path, "Max-Age=0"];
      NamesConcat([path, "Max-Age=0"], domain);
      PartedConcat([path, "Max-Age=0"], domain);
    } else {
      ReadFlags(c);
      NamesConcat([path], domain);
      PartedConcat([path], domain);
      NamesConcat([path] + domain, Flags(c));
      PartedConcat([path] + domain, Flags(c));
    }
  }

  lemma OnePiece(piece: string, read: (string, string))
    requires NameAndValue(piece) == read && ';' !in piece
    ensures NamesAndValues([piece]) == [read] && Parted([piece])
  {
    hide NameAndValue;
    ReadIf(true, piece, read);
  }

  lemma PathAndDomain(c: Config)
    requires PlainConfig(c)
    ensures NameAndValue("Path=" + c.path) == ("Path", c.path) && ';' !in "Path=" + c.path
    ensures var domain := If(c.domain != "", "Domain=" + c.domain);
            Parted(domain) && NamesAndValues(domain) == If(c.domain != "", ("Domain", c.domain))
  {
    hide NamesAndValues, NameAndValue, Stripped, Parted, If;
    NamesArePlain();
    NamedPiece("Path", c.path);
    assert "Path" + "=" + c.path == "Path=" + c.path;
    NamedPiece("Domain", c.domain);
    assert "Domain" + "=" + c.domain == "Domain=" + c.domain;
    ReadIf(c.domain != "", "Domain=" + c.domain, ("Domain", c.domain));
  }
}
