// Percent-encoding, the PEM wrapper and the certificate chain of the Lua API.
module UrlEncoding {
  import opened Sequences
  import opened Wrappers

  // A C++ char, seen as an unsigned byte.
  type octet = c: char | c as int < 256 witness 'a'

  // ---- Percent-encoding ----

  predicate Alphanumeric(c: octet) {
    '0' <= c <= '9' || 'A' <= c <= 'Z' || 'a' <= c <= 'z'
  }

  predicate Unreserved(c: octet) {
    Alphanumeric(c) || c == '-' || c == '_' || c == '.' || c == '~'
  }

  function HexDigit(n: nat): octet
    requires n < 16
  {
    if n < 10 then ('0' as int + n) as char else ('A' as int + n - 10) as char
  }

  function EncodeOne(c: octet): seq<octet> {
    if Unreserved(c) then [c] else ['%', HexDigit(c as int / 16), HexDigit(c as int % 16)]
  }

  function Encode(s: seq<octet>): seq<octet> {
    if s == [] then [] else EncodeOne(s[0]) + Encode(s[1..])
  }

  lemma {:induction false} EncodeDistributes(a: seq<octet>, b: seq<octet>)
    ensures Encode(a + b) == Encode(a) + Encode(b)
  {
    if a == [] {
      WithEmpty(b);
    } else {
      EncodeDistributes(a[1..], b);
      TailOfConcat(a, b);
      Associate(EncodeOne(a[0]), Encode(a[1..]), Encode(b));
    }
  }

  lemma EncodeOneMore(s: seq<octet>, i: nat)
    requires i < |s|
    ensures Encode(s[..i + 1]) == Encode(s[..i]) + EncodeOne(s[i])
  {
    assert s[..i + 1] == s[..i] + [s[i]];
    EncodeDistributes(s[..i], [s[i]]);
    assert [s[i]][1..] == [];
    assert EncodeOne(s[i]) + Encode([]) == EncodeOne(s[i]);
  }

  method UrlEncode(value: seq<octet>) returns (escaped: seq<octet>)
    ensures escaped == Encode(value)
  {
    escaped := [];
    var i := 0;
    while i < |value|
      invariant 0 <= i <= |value|
      invariant escaped == Encode(value[..i])
    {
      var c := value[i];
      EncodeOneMore(value, i);
      if Alphanumeric(c) || c == '-' || c == '_' || c == '.' || c == '~' {
        escaped := escaped + [c];
      } else {
        escaped := escaped + ['%', HexDigit(c as int / 16), HexDigit(c as int % 16)];
      }
      i := i + 1;
    }
    assert value[..i] == value;
  }

  // The unreserved characters of section 2.3 of RFC 3986 stand for themselves; any other
  // octet is written with two hexadecimal digits in upper case.
  lemma EscapesAreUpperCase(c: octet)
    ensures if 'A' <= c <= 'Z' || 'a' <= c <= 'z' || '0' <= c <= '9' || c in {'-', '.', '_', '~'}
            then Encode([c]) == [c]
            else |Encode([c])| == 3 && Encode([c])[0] == '%' &&
                 Encode([c])[1] in "0123456789ABCDEF" && Encode([c])[2] in "0123456789ABCDEF"
  {
    assert [c][1..] == [];
    WithEmpty(EncodeOne(c));
    if !Unreserved(c) {
      HexDigitsAre(c as int / 16);
      HexDigitsAre(c as int % 16);
    }
  }

  lemma HexDigitsAre(n: nat)
    requires n < 16
    ensures HexDigit(n) == "0123456789ABCDEF"[n]
  {
  }

  // ---- Decoding, as sections 2.1 and 2.3 of RFC 3986 have it ----

  function HexValue(c: octet): Option<nat> {
    if '0' <= c <= '9' then Some(c as int - '0' as int)
    else if 'A' <= c <= 'F' then Some(c as int - 'A' as int + 10)
    else if 'a' <= c <= 'f' then Some(c as int - 'a' as int + 10)
    else None
  }

  // One encoded octet at the front of t, and the length of its encoding.
  function DecodeOne(t: seq<octet>): (r: Option<(octet, nat)>)
    requires t != []
    ensures r.Some? ==> 0 < r.value.1 <= |t|
    ensures r.Some? ==> |EncodeOne(r.value.0)| <= r.value.1
  {
    if Unreserved(t[0]) then Some((t[0], 1))
    else if t[0] != '%' || |t| < 3 then None
    else
      var high, low := HexValue(t[1]), HexValue(t[2]);
      if high.None? || low.None? then None
      else Some(((16 * high.value + low.value) as char, 3))
  }

  function Decode(t: seq<octet>): Option<seq<octet>>
    decreases |t|
  {
    if t == [] then Some([])
    else
      match DecodeOne(t)
      case None => None
      case Some((c, n)) =>
        match Decode(t[n..])
        case None => None
        case Some(rest) => Some([c] + rest)
  }

  lemma DecodeOneEncoded(c: octet, rest: seq<octet>)
    ensures DecodeOne(EncodeOne(c) + rest) == Some((c, |EncodeOne(c)|))
  {
    var t := EncodeOne(c) + rest;
    if !Unreserved(c) {
      assert t[0] == '%' && t[1] == HexDigit(c as int / 16) && t[2] == HexDigit(c as int % 16);
    }
  }

  // Decoding undoes encoding.
  lemma {:induction false} DecodeEncode(s: seq<octet>)
    ensures Decode(Encode(s)) == Some(s)
  {
    hide EncodeOne, DecodeOne;
    if s != [] {
      DecodeEncode(s[1..]);
      DecodeOneEncoded(s[0], Encode(s[1..]));
      var one := EncodeOne(s[0]);
      assert (one + Encode(s[1..]))[|one|..] == Encode(s[1..]);
      assert [s[0]] + s[1..] == s;
    }
  }

  lemma EncodeInjective(a: seq<octet>, b: seq<octet>)
    requires Encode(a) == Encode(b)
    ensures a == b
  {
    DecodeEncode(a);
    DecodeEncode(b);
  }

  function Reserved(s: seq<octet>): nat {
    if s == [] then 0 else (if Unreserved(s[0]) then 0 else 1) + Reserved(s[1..])
  }

  // Each octet outside the unreserved set costs two more: at most three times the
  // length, and the output is made of unreserved characters and percent signs.
  lemma {:induction false} EncodeSize(s: seq<octet>)
    ensures |Encode(s)| == |s| + 2 * Reserved(s) <= 3 * |s|
    ensures forall c | c in Encode(s) :: Unreserved(c) || c == '%'
  {
    if s != [] {
      EncodeSize(s[1..]);
    }
  }

  // No well-formed encoding of s is shorter.
  lemma {:induction false} EncodeIsShortest(t: seq<octet>, s: seq<octet>)
    requires Decode(t) == Some(s)
    ensures |Encode(s)| <= |t|
    decreases |t|
  {
    hide EncodeOne, DecodeOne;
    if t != [] {
      var (c, n) := DecodeOne(t).value;
      var rest := Decode(t[n..]).value;
      EncodeIsShortest(t[n..], rest);
      assert s[0] == c && s[1..] == rest;
    }
  }

  // ---- PEM blocks ----

  const LINE := 64
  const BEGIN: seq<octet> := "-----BEGIN CERTIFICATE-----\n"
  const END: seq<octet> := "-----END CERTIFICATE-----\n"

  // One colon is dropped at each end.
  function Strip(b: seq<octet>): seq<octet> {
    var front := if |b| > 0 && b[0] == ':' then b[1..] else b;
    if |front| > 0 && front[|front| - 1] == ':' then front[..|front| - 1] else front
  }

  function Lines(b: seq<octet>): seq<seq<octet>> {
    if b == [] then [] else if |b| <= LINE then [b] else [b[..LINE]] + Lines(b[LINE..])
  }

  function Terminated(lines: seq<seq<octet>>): seq<octet> {
    if lines == [] then [] else lines[0] + ['\n'] + Terminated(lines[1..])
  }

  function Pem(b64: seq<octet>): seq<octet> {
    BEGIN + Terminated(Lines(Strip(b64))) + END
  }

  // Section 2 of RFC 7468: every line but the last has exactly 64 characters, the last
  // one to 64, and the lines hold the text in order.
  lemma {:induction false} LinesShape(b: seq<octet>)
    ensures Flatten(Lines(b)) == b
    ensures forall i | 0 <= i < |Lines(b)| :: 0 < |Lines(b)[i]| <= 64
    ensures forall i | 0 <= i < |Lines(b)| - 1 :: |Lines(b)[i]| == 64
    ensures |Lines(b)| == (|b| + 63) / 64
    decreases |b|
  {
    if b == [] {
    } else if |b| <= LINE {
      assert [b][1..] == [];
      assert b + [] == b;
    } else {
      var rest := Lines(b[LINE..]);
      LinesShape(b[LINE..]);
      assert Lines(b)[1..] == rest;
      assert b[..LINE] + b[LINE..] == b;
      forall i | 0 <= i < |Lines(b)| - 1
        ensures |Lines(b)[i]| == LINE
      {
        assert i > 0 ==> Lines(b)[i] == rest[i - 1];
      }
      forall i | 0 <= i < |Lines(b)|
        ensures 0 < |Lines(b)[i]| <= LINE
      {
        assert i > 0 ==> Lines(b)[i] == rest[i - 1];
      }
    }
  }

  lemma TerminatedFirst(first: seq<octet>, rest: seq<seq<octet>>)
    ensures Terminated([first] + rest) == first + ['\n'] + Terminated(rest)
  {
    assert ([first] + rest)[1..] == rest;
  }

  function Least(a: nat, b: nat): nat {
    if a <= b then a else b
  }

  lemma NextLine(b: seq<octet>)
    requires b != []
    ensures Lines(b) == [b[..Least(LINE, |b|)]] + Lines(b[Least(LINE, |b|)..])
  {
    if |b| <= LINE {
      assert b[..|b|] == b && b[|b|..] == [];
    }
  }

  method Base64DerToUrlEncodedPem(b64: seq<octet>) returns (out: seq<octet>)
    ensures out == Encode(Pem(b64))
  {
    hide Encode, Lines, Terminated;
    var der := b64;
    if |der| > 0 && der[0] == ':' {
      der := der[1..];
    }
    if |der| > 0 && der[|der| - 1] == ':' {
      der := der[..|der| - 1];
    }
    assert der == Strip(b64);
    var pem: seq<octet> := BEGIN;
    ghost var whole: seq<octet> := pem + Terminated(Lines(der));
    var i := 0;
    assert der[Least(0, |der|)..] == der;
    while i < |der|
      invariant 0 <= i
      invariant pem + Terminated(Lines(der[Least(i, |der|)..])) == whole
    {
      WrapStep(pem, der, i, whole);
      pem := pem + der[i..Least(i + LINE, |der|)] + ['\n'];
      i := i + LINE;
    }
    WrapEnd(pem, der, whole);
    pem := pem + END;
    out := UrlEncode(pem);
  }

  lemma WrapStep(pem: seq<octet>, der: seq<octet>, i: nat, whole: seq<octet>)
    requires i < |der| && pem + Terminated(Lines(der[i..])) == whole
    ensures var next := Least(i + LINE, |der|);
            (pem + der[i..next] + ['\n']) + Terminated(Lines(der[next..])) == whole
  {
    hide Lines, Terminated;
    var next := Least(i + LINE, |der|);
    var rest := Terminated(Lines(der[next..]));
    NextLine(der[i..]);
    SliceOfTail(der, i, next - i);
    TerminatedFirst(der[i..next], Lines(der[next..]));
    Associate(pem, der[i..next] + ['\n'], rest);
    Associate(pem, der[i..next], ['\n']);
  }

  lemma WrapEnd(pem: seq<octet>, der: seq<octet>, whole: seq<octet>)
    requires pem + Terminated(Lines(der[|der|..])) == whole
    ensures pem == whole
  {
    assert der[|der|..] == [];
    WithEmpty(pem);
  }

  lemma SliceOfTail<T>(s: seq<T>, i: nat, n: nat)
    requires i + n <= |s|
    ensures s[i..][..n] == s[i..i + n] && s[i..][n..] == s[i + n..]
  {
  }

  // ---- Reading a block back ----

  function WithoutNewlines(s: seq<octet>): seq<octet> {
    if s == [] then [] else (if s[0] == '\n' then [] else [s[0]]) + WithoutNewlines(s[1..])
  }

  lemma {:induction false} WithoutNewlinesConcat(a: seq<octet>, b: seq<octet>)
    ensures WithoutNewlines(a + b) == WithoutNewlines(a) + WithoutNewlines(b)
  {
    if a == [] {
      WithEmpty(b);
    } else {
      WithoutNewlinesConcat(a[1..], b);
      TailOfConcat(a, b);
      var first := if a[0] == '\n' then [] else [a[0]];
      Associate(first, WithoutNewlines(a[1..]), WithoutNewlines(b));
    }
  }

  lemma {:induction false} WithoutNewlinesSame(s: seq<octet>)
    ensures '\n' !in WithoutNewlines(s)
    ensures WithoutNewlines(s) == s <==> '\n' !in s
  {
    if s != [] {
      WithoutNewlinesSame(s[1..]);
      assert [s[0]] + s[1..] == s;
    }
  }

  lemma {:induction false} TerminatedWithoutNewlines(lines: seq<seq<octet>>)
    ensures WithoutNewlines(Terminated(lines)) == WithoutNewlines(Flatten(lines))
  {
    if lines != [] {
      TerminatedWithoutNewlines(lines[1..]);
      WithoutNewlinesConcat(lines[0] + ['\n'], Terminated(lines[1..]));
      WithoutNewlinesConcat(lines[0], ['\n']);
      WithoutNewlinesConcat(lines[0], Flatten(lines[1..]));
      assert ['\n'][1..] == [];
      assert WithoutNewlines(['\n']) == [];
    }
  }

  // Dropping the line ends of a block gives the text back, exactly when the text has
  // no line end of its own.
  lemma WrappingIsUndone(b: seq<octet>)
    ensures WithoutNewlines(Terminated(Lines(b))) == b <==> '\n' !in b
  {
    TerminatedWithoutNewlines(Lines(b));
    LinesShape(b);
    WithoutNewlinesSame(b);
  }

  // ---- The chain ----

  // The certificates of a connection, the leaf first. A property that is missing or
  // empty contributes none; an empty piece of the chain contributes an empty block.
  function Certificates(leaf: Option<seq<octet>>, chain: Option<seq<octet>>): seq<seq<octet>> {
    (if leaf.Some? && leaf.value != [] then [leaf.value] else []) +
    (if chain.Some? && chain.value != [] then Split<octet>(chain.value, ',') else [])
  }

  // The leaf comes first, and then the chain, which reads as it came.
  lemma CertificatesInOrder(leaf: Option<seq<octet>>, chain: Option<seq<octet>>)
    ensures var all, n := Certificates(leaf, chain), if leaf.Some? && leaf.value != [] then 1 else 0;
            && n <= |all|
            && (n == 1 ==> all[0] == leaf.value)
            && (forall part | part in all[n..] :: ',' !in part)
            && (if chain.Some? && chain.value != [] then |all| > n && Join<octet>(all[n..], [',']) == chain.value
                else |all| == n)
  {
    var all, n := Certificates(leaf, chain), if leaf.Some? && leaf.value != [] then 1 else 0;
    if chain.Some? && chain.value != [] {
      SplitParts<octet>(chain.value, ',');
      assert all[n..] == Split<octet>(chain.value, ',');
    } else {
      assert all[n..] == [];
    }
  }

  function Bundle(certificates: seq<seq<octet>>): seq<octet> {
    if certificates == [] then [] else Pem(certificates[0]) + Bundle(certificates[1..])
  }

  lemma {:induction false} BundleSnoc(certificates: seq<seq<octet>>, last: seq<octet>)
    ensures Bundle(certificates + [last]) == Bundle(certificates) + Pem(last)
  {
    hide Pem;
    if certificates == [] {
      assert certificates + [last] == [last] && [last][1..] == [];
      assert Pem(last) + [] == [] + Pem(last);
    } else {
      BundleSnoc(certificates[1..], last);
      assert (certificates + [last])[1..] == certificates[1..] + [last];
      Associate(Pem(certificates[0]), Bundle(certificates[1..]), Pem(last));
    }
  }

  method GetUrlEncodedPemEncodedPeerCertificateChain(leaf: Option<seq<octet>>, chain: Option<seq<octet>>)
    returns (full: seq<octet>)
    ensures full == Encode(Bundle(Certificates(leaf, chain)))
  {
    hide Pem, Encode, Split;
    full := [];
    EncodeNothing();
    ghost var done: seq<seq<octet>> := [];
    if leaf.Some? && leaf.value != [] {
      var block := Base64DerToUrlEncodedPem(leaf.value);
      BundleSnoc(done, leaf.value);
      EncodeDistributes(Bundle(done), Pem(leaf.value));
      done := done + [leaf.value];
      full := full + block;
    }
    if chain.Some? && chain.value != [] {
      var parts := Split<octet>(chain.value, ',');
      ghost var first := done;
      var i := 0;
      while i < |parts|
        invariant 0 <= i <= |parts|
        invariant done == first + parts[..i]
        invariant full == Encode(Bundle(done))
      {
        var block := Base64DerToUrlEncodedPem(parts[i]);
        BundleSnoc(done, parts[i]);
        EncodeDistributes(Bundle(done), Pem(parts[i]));
        assert parts[..i + 1] == parts[..i] + [parts[i]];
        done := done + [parts[i]];
        full := full + block;
        i := i + 1;
      }
      assert parts[..i] == parts;
    }
    assert done == Certificates(leaf, chain);
  }

  lemma EncodeNothing()
    ensures Encode(Bundle([])) == []
  {
  }

  // ---- Reading the chain back ----

  function UpToDash(t: seq<octet>): (n: nat)
    ensures n <= |t|
  {
    if t == [] || t[0] == '-' then 0 else 1 + UpToDash(t[1..])
  }

  // A reader of PEM bundles: the text between the marker lines, with no line ends.
  function ReadBundle(t: seq<octet>): Option<seq<seq<octet>>>
    decreases |t|
  {
    var begin: seq<octet>, end: seq<octet> := "-----BEGIN CERTIFICATE-----\n", "-----END CERTIFICATE-----\n";
    if t == [] then Some([])
    else if !(begin <= t) then None
    else
      var body := t[|begin|..];
      var n := UpToDash(body);
      if !(end <= body[n..]) then None
      else
        match ReadBundle(body[n..][|end|..])
        case None => None
        case Some(rest) => Some([WithoutNewlines(body[..n])] + rest)
  }

  // What Base64 text never contains.
  predicate Plain(s: seq<octet>) {
    '-' !in s && '\n' !in s
  }

  lemma {:induction false} UpToDashSkips(a: seq<octet>, b: seq<octet>)
    requires '-' !in a && b != [] && b[0] == '-'
    ensures UpToDash(a + b) == |a|
  {
    if a == [] {
      WithEmpty(b);
    } else {
      UpToDashSkips(a[1..], b);
      TailOfConcat(a, b);
    }
  }

  lemma {:induction false} TerminatedHasNoDash(lines: seq<seq<octet>>)
    requires '-' !in Flatten(lines)
    ensures '-' !in Terminated(lines)
  {
    if lines != [] {
      TerminatedHasNoDash(lines[1..]);
    }
  }

  function Stripped(certificates: seq<seq<octet>>): seq<seq<octet>> {
    if certificates == [] then [] else [Strip(certificates[0])] + Stripped(certificates[1..])
  }

  // One colon is dropped at each end, and no more.
  lemma OneColonIsDropped(x: seq<octet>)
    ensures Strip([':'] + x + [':']) == x
    ensures x == [] || x[0] != ':' ==> Strip(x + [':']) == x
    ensures x == [] || x[|x| - 1] != ':' ==> Strip([':'] + x) == x
    ensures x == [] || (x[0] != ':' && x[|x| - 1] != ':') ==> Strip(x) == x
  {
    var t: seq<octet> := [':'] + x;
    assert t[1..] == x && (t + [':'])[1..] == x + [':'];
    assert (x + [':'])[..|x|] == x;
  }

  lemma {:induction false} BundleReadsBack(certificates: seq<seq<octet>>)
    requires forall c | c in certificates :: Plain(c)
    ensures ReadBundle(Bundle(certificates)) == Some(Stripped(certificates))
  {
    hide Strip, WithoutNewlines, Terminated, Lines, UpToDash, Flatten;
    if certificates != [] {
      var first, rest := certificates[0], Bundle(certificates[1..]);
      BundleReadsBack(certificates[1..]);
      StripPlain(first);
      var text := Terminated(Lines(Strip(first)));
      WrappingIsUndone(Strip(first));
      LinesShape(Strip(first));
      TerminatedHasNoDash(Lines(Strip(first)));
      ReadOne(text, rest);
    }
  }

  lemma StripPlain(b: seq<octet>)
    requires Plain(b)
    ensures Plain(Strip(b))
  {
  }

  lemma ReadOne(text: seq<octet>, rest: seq<octet>)
    requires '-' !in text
    ensures ReadBundle(rest).Some? ==>
              ReadBundle(BEGIN + text + END + rest) == Some([WithoutNewlines(text)] + ReadBundle(rest).value)
  {
    hide WithoutNewlines, UpToDash;
    var t := BEGIN + text + END + rest;
    FourParts(BEGIN, text, END, rest);
    UpToDashSkips(text, END + rest);
  }

  lemma FourParts<T>(a: seq<T>, b: seq<T>, c: seq<T>, d: seq<T>)
    ensures a + b + c + d == a + (b + (c + d))
    ensures a <= a + (b + (c + d)) && (a + (b + (c + d)))[|a|..] == b + (c + d)
    ensures (b + (c + d))[..|b|] == b && (b + (c + d))[|b|..] == c + d
    ensures c <= c + d && (c + d)[|c|..] == d
  {
  }

  // Whoever decodes the header and reads the bundle gets the certificates of the
  // connection, leaf first and in order, each without its enclosing colons.
  lemma ChainReadsBack(leaf: Option<seq<octet>>, chain: Option<seq<octet>>)
    requires leaf.Some? ==> Plain(leaf.value)
    requires chain.Some? ==> Plain(chain.value)
    ensures var bundle := Decode(Encode(Bundle(Certificates(leaf, chain))));
            bundle.Some? && ReadBundle(bundle.value) == Some(Stripped(Certificates(leaf, chain)))
  {
    hide Encode, Decode, Bundle, ReadBundle, Stripped;
    DecodeEncode(Bundle(Certificates(leaf, chain)));
    if chain.Some? {
      PlainPieces(chain.value);
    }
    BundleReadsBack(Certificates(leaf, chain));
  }

  lemma {:induction false} PlainPieces(s: seq<octet>)
    requires Plain(s)
    ensures forall part | part in Split<octet>(s, ',') :: Plain(part)
  {
    if s != [] {
      PlainPieces(s[1..]);
      var rest := Split<octet>(s[1..], ',');
      assert Plain(rest[0]) && Plain([s[0]] + rest[0]);
    }
  }
}
