// Joining and splitting sequences, shared by the text algorithms.
module Sequences {

  function Flatten<T>(parts: seq<seq<T>>): seq<T> {
    if parts == [] then [] else parts[0] + Flatten(parts[1..])
  }

  // The parts with the separator between them.
  function Join<T>(parts: seq<seq<T>>, separator: seq<T>): seq<T> {
    if parts == [] then [] else if |parts| == 1 then parts[0]
    else parts[0] + separator + Join(parts[1..], separator)
  }

  lemma Associate<T>(a: seq<T>, b: seq<T>, c: seq<T>)
    ensures (a + b) + c == a + (b + c)
  {
  }

  lemma TailOfConcat<T>(a: seq<T>, b: seq<T>)
    requires a != []
    ensures a + b != [] && (a + b)[0] == a[0] && (a + b)[1..] == a[1..] + b
  {
  }

  lemma TailOfCons<T>(x: T, s: seq<T>)
    ensures [x] + s != [] && ([x] + s)[0] == x && ([x] + s)[1..] == s
  {
  }

  lemma WithEmpty<T>(s: seq<T>)
    ensures [] + s == s && s + [] == s
  {
  }

  // The pieces between the separators.
  function Split<T(==)>(s: seq<T>, separator: T): (parts: seq<seq<T>>)
    ensures parts != []
  {
    if s == [] then [[]]
    else
      var rest := Split(s[1..], separator);
      if s[0] == separator then [[]] + rest else [[s[0]] + rest[0]] + rest[1..]
  }

  lemma {:induction false} SplitParts<T>(s: seq<T>, separator: T)
    ensures Join(Split(s, separator), [separator]) == s
    ensures forall part | part in Split(s, separator) :: separator !in part
  {
    if s != [] {
      hide Join;
      SplitParts(s[1..], separator);
      var rest := Split(s[1..], separator);
      assert [s[0]] + s[1..] == s;
      if s[0] == separator {
        JoinStarts(rest, separator);
      } else {
        JoinPrepends(s[0], rest, separator);
        NoneAdded(s[0], rest, separator);
      }
    }
  }

  lemma JoinStarts<T>(parts: seq<seq<T>>, separator: T)
    requires parts != []
    ensures Join([[]] + parts, [separator]) == [separator] + Join(parts, [separator])
  {
    TailOfCons([], parts);
    WithEmpty([separator]);
  }

  lemma JoinPrepends<T>(c: T, parts: seq<seq<T>>, separator: T)
    requires parts != []
    ensures Join([[c] + parts[0]] + parts[1..], [separator]) == [c] + Join(parts, [separator])
  {
    TailOfCons([c] + parts[0], parts[1..]);
    var rest := Join(parts[1..], [separator]);
    Associate([c], parts[0], [separator]);
    Associate([c], parts[0] + [separator], rest);
  }

  lemma NoneAdded<T>(c: T, parts: seq<seq<T>>, separator: T)
    requires parts != [] && c != separator && forall part | part in parts :: separator !in part
    ensures forall part | part in [[c] + parts[0]] + parts[1..] :: separator !in part
  {
    assert parts[0] in parts;
  }

  lemma {:induction false} SplitFirst<T>(first: seq<T>, separator: T, rest: seq<T>)
    requires separator !in first
    ensures Split(first + [separator] + rest, separator) == [first] + Split(rest, separator)
    ensures Split(first, separator) == [first]
  {
    var s := first + [separator] + rest;
    if first == [] {
      assert s == [separator] + rest;
    } else {
      SplitFirst(first[1..], separator, rest);
      assert s[1..] == first[1..] + [separator] + rest && s[0] == first[0];
      TailOfCons(first[1..], Split(rest, separator));
      assert first == [first[0]] + first[1..];
    }
  }

  // Splitting undoes joining.
  lemma {:induction false} SplitJoined<T>(parts: seq<seq<T>>, separator: T)
    requires parts != [] && forall part | part in parts :: separator !in part
    ensures Split(Join(parts, [separator]), separator) == parts
  {
    hide Split;
    if |parts| == 1 {
      SplitFirst(parts[0], separator, []);
    } else {
      SplitJoined(parts[1..], separator);
      SplitFirst(parts[0], separator, Join(parts[1..], [separator]));
      assert parts == [parts[0]] + parts[1..];
    }
  }

  lemma SplitCons<T>(x: T, s: seq<T>, separator: T)
    ensures var rest := Split(s, separator);
            Split([x] + s, separator) == if x == separator then [[]] + rest else [[x] + rest[0]] + rest[1..]
  {
    TailOfCons(x, s);
  }

  lemma {:induction false} SplitConcat<T>(a: seq<T>, separator: T, b: seq<T>)
    ensures Split(a + [separator] + b, separator) == Split(a, separator) + Split(b, separator)
  {
    hide Split;
    if a == [] {
      WithEmpty([separator]);
      SplitCons(separator, b, separator);
      SplitNothing(separator);
    } else {
      var tail := a[1..] + [separator] + b;
      assert a + [separator] + b == [a[0]] + tail && a == [a[0]] + a[1..];
      SplitConcat(a[1..], separator, b);
      SplitCons(a[0], a[1..], separator);
      SplitCons(a[0], tail, separator);
      var first, more := Split(a[1..], separator), Split(b, separator);
      TailOfConcat(first, more);
      if a[0] == separator {
        Associate([[]], first, more);
      } else {
        Associate([[a[0]] + first[0]], first[1..], more);
      }
    }
  }

  lemma SplitNothing<T>(separator: T)
    ensures Split([], separator) == [[]]
  {
  }
}
