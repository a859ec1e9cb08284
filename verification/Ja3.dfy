/** The JA3 string: a version number and four lists of numbers, printed in decimal. */
module Ja3 {
  import opened Wrappers
  import opened Text

  datatype TlsVersion = V1_3 | V1_2 | V1_1 | V1_0 | Ssl3_0 | Ssl2_0 | Unknown(id: nat)

  /** The parsed ClientHello, as far as JA3 reads it. */
  datatype Signature = Signature(version: TlsVersion, ciphers: seq<nat>, extensions: seq<nat>, groups: seq<nat>,
        pointFormats: seq<nat>)

  /** The five components of a JA3 string. */
  datatype Components = Components(version: nat, ciphers: seq<nat>, extensions: seq<nat>, groups: seq<nat>,
        pointFormats: seq<nat>)

  function VersionId(v: TlsVersion): nat {
    match v
    case V1_3 => 771
    case V1_2 => 770
    case V1_1 => 769
    case V1_0 => 768
    case Ssl3_0 => 768
    case Ssl2_0 => 767
    case Unknown(id) => id
  }

  function ComponentsOf(s: Signature): Components {
    Components(VersionId(s.version), s.ciphers, s.extensions, s.groups, s.pointFormats)
  }

  function PrintNumbers(numbers: seq<nat>): seq<string> {
    seq(|numbers|, i requires 0 <= i < |numbers| => Dec(numbers[i]))
  }

  function PrintList(numbers: seq<nat>): string {
    Join(PrintNumbers(numbers), "-")
  }

  function Print(c: Components): string {
    Dec(c.version) + "," + PrintList(c.ciphers) + "," + PrintList(c.extensions) + "," + PrintList(c.groups) + "," +
    PrintList(c.pointFormats)
  }

  function Ja3(s: Signature): string {
    Print(ComponentsOf(s))
  }

  // ----- A decoder -----

  function ParseNumber(s: string): Option<nat> {
    if Canonical(s) then Some(ValueOf(s)) else None
  }

  function ParseNumbers(parts: seq<string>): Option<seq<nat>> {
    if parts == [] then Some([])
    else match (ParseNumber(parts[0]), ParseNumbers(parts[1..]))
      case (Some(n), Some(rest)) => Some([n] + rest)
      case _ => None
  }

  function ParseList(s: string): Option<seq<nat>> {
    if s == "" then Some([]) else ParseNumbers(Split(s, '-'))
  }

  function Parse(s: string): Option<Components> {
    var parts := Split(s, ',');
    if |parts| != 5 then None
    else match (ParseNumber(parts[0]), ParseList(parts[1]), ParseList(parts[2]), ParseList(parts[3]),
      ParseList(parts[4]))
      case (Some(version), Some(ciphers), Some(extensions), Some(groups), Some(pointFormats)) =>
        Some(Components(version, ciphers, extensions, groups, pointFormats))
      case _ => None
  }

  // ----- Lists -----

  lemma DecIsPlain(n: nat)
    ensures Dec(n) != [] && '-' !in Dec(n) && ',' !in Dec(n)
    ensures ParseNumber(Dec(n)) == Some(n)
  {
    DecRoundTrip(n);
    DecIsCanonical(n);
  }

  lemma {:induction false} NumbersRoundTrip(numbers: seq<nat>)
    ensures ParseNumbers(PrintNumbers(numbers)) == Some(numbers)
  {
    if numbers != [] {
      assert PrintNumbers(numbers)[1..] == PrintNumbers(numbers[1..]);
      DecIsPlain(numbers[0]);
      NumbersRoundTrip(numbers[1..]);
      assert [numbers[0]] + numbers[1..] == numbers;
    }
  }

  lemma {:induction false} JoinNonEmpty(parts: seq<string>, sep: string)
    requires parts != [] && parts[0] != []
    ensures Join(parts, sep) != []
  {
  }

  lemma ListRoundTrip(numbers: seq<nat>)
    ensures ParseList(PrintList(numbers)) == Some(numbers)
  {
    if numbers != [] {
      var parts := PrintNumbers(numbers);
      forall p | p in parts ensures '-' !in p {
        var i :| 0 <= i < |numbers| && p == Dec(numbers[i]);
        DecIsPlain(numbers[i]);
      }
      DecIsPlain(numbers[0]);
      JoinNonEmpty(parts, "-");
      SplitJoin(parts, '-');
      NumbersRoundTrip(numbers);
    }
  }

  lemma {:induction false} JoinChars(parts: seq<string>, sep: string, c: char)
    requires c !in sep && forall p :: p in parts ==> c !in p
    ensures c !in Join(parts, sep)
  {
    if |parts| > 1 {
      JoinChars(parts[1..], sep, c);
    }
  }

  lemma ListHasNoComma(numbers: seq<nat>)
    ensures ',' !in PrintList(numbers)
  {
    var parts := PrintNumbers(numbers);
    forall p | p in parts ensures ',' !in p {
      var i :| 0 <= i < |numbers| && p == Dec(numbers[i]);
      DecIsPlain(numbers[i]);
    }
    JoinChars(parts, "-", ',');
  }

  // ----- The whole string -----

  function Sections(c: Components): seq<string> {
    [Dec(c.version), PrintList(c.ciphers), PrintList(c.extensions), PrintList(c.groups), PrintList(c.pointFormats)]
  }

  lemma PrintJoinsSections(c: Components)
    ensures Print(c) == Join(Sections(c), [','])
  {
    JoinFive(Dec(c.version), PrintList(c.ciphers), PrintList(c.extensions), PrintList(c.groups),
      PrintList(c.pointFormats));
  }

  lemma JoinFive(a: string, b: string, c: string, d: string, e: string)
    ensures Join([a, b, c, d, e], [',']) == a + "," + b + "," + c + "," + d + "," + e
  {
    assert [a, b, c, d, e][1..] == [b, c, d, e] && [b, c, d, e][1..] == [c, d, e] && [c, d, e][1..] == [d, e] &&
      [d, e][1..] == [e];
    assert Join([d, e], [',']) == d + [','] + e;
    assert Join([c, d, e], [',']) == c + [','] + (d + [','] + e);
    assert Join([b, c, d, e], [',']) == b + [','] + (c + [','] + (d + [','] + e));
    assert Join([a, b, c, d, e], [',']) == a + [','] + (b + [','] + (c + [','] + (d + [','] + e)));
  }

  /** The five components are recovered from the string, empty lists included. */
  lemma RoundTrip(c: Components)
    ensures Parse(Print(c)) == Some(c)
  {
    PrintJoinsSections(c);
    DecIsPlain(c.version);
    ListHasNoComma(c.ciphers);
    ListHasNoComma(c.extensions);
    ListHasNoComma(c.groups);
    ListHasNoComma(c.pointFormats);
    SplitJoin(Sections(c), ',');
    ListRoundTrip(c.ciphers);
    ListRoundTrip(c.extensions);
    ListRoundTrip(c.groups);
    ListRoundTrip(c.pointFormats);
  }

  /** Two ClientHellos share a JA3 string exactly when their lists are equal and their versions have one number. */
  lemma SharedStrings(s: Signature, t: Signature)
    ensures Ja3(s) == Ja3(t) <==>
      && VersionId(s.version) == VersionId(t.version) && s.ciphers == t.ciphers && s.extensions == t.extensions
      && s.groups == t.groups && s.pointFormats == t.pointFormats
  {
    RoundTrip(ComponentsOf(s));
    RoundTrip(ComponentsOf(t));
  }

  /** What the decoder finds in the string of a ClientHello, with the numbers of the versions. */
  lemma DecodedExactly(s: Signature)
    ensures Parse(Ja3(s)).Some?
    ensures var c := Parse(Ja3(s)).value;
      && c.ciphers == s.ciphers && c.extensions == s.extensions && c.groups == s.groups &&
           c.pointFormats == s.pointFormats
      && (s.version == V1_3 ==> c.version == 771) && (s.version == V1_2 ==> c.version == 770)
      && (s.version == V1_1 ==> c.version == 769) && (s.version == V1_0 ==> c.version == 768)
      && (s.version == Ssl3_0 ==> c.version == 768) && (s.version == Ssl2_0 ==> c.version == 767)
      && (s.version.Unknown? ==> c.version == s.version.id)
  {
    RoundTrip(ComponentsOf(s));
  }

  /** Between its commas the string has the version number and the four lists in order. */
  lemma PartsExactly(s: Signature)
    ensures Split(Ja3(s), ',') ==
      [Dec(VersionId(s.version)), PrintList(s.ciphers), PrintList(s.extensions), PrintList(s.groups),
       PrintList(s.pointFormats)]
  {
    var c := ComponentsOf(s);
    PrintJoinsSections(c);
    DecIsPlain(c.version);
    ListHasNoComma(c.ciphers);
    ListHasNoComma(c.extensions);
    ListHasNoComma(c.groups);
    ListHasNoComma(c.pointFormats);
    SplitJoin(Sections(c), ',');
  }

  /** Between its hyphens a list has its numbers in decimal, in order; an empty list is the empty string. */
  lemma ListExactly(numbers: seq<nat>)
    ensures numbers == [] ==> PrintList(numbers) == ""
    ensures numbers != [] ==>
      && |Split(PrintList(numbers), '-')| == |numbers|
      && forall i :: 0 <= i < |numbers| ==> Split(PrintList(numbers), '-')[i] == Dec(numbers[i])
  {
    if numbers != [] {
      var parts := PrintNumbers(numbers);
      forall p | p in parts ensures '-' !in p {
        var i :| 0 <= i < |numbers| && p == Dec(numbers[i]);
        DecIsPlain(numbers[i]);
      }
      SplitJoin(parts, '-');
    }
  }

  /** Of the versions with a name, only TLS 1.0 and SSL 3.0 cannot be told apart by the string. */
  lemma VersionsCollide(lists: Signature, v: TlsVersion, w: TlsVersion)
    requires !v.Unknown? && !w.Unknown?
    ensures Ja3(lists.(version := v)) == Ja3(lists.(version := w)) <==> v == w || {v, w} == {V1_0, Ssl3_0}
  {
    SharedStrings(lists.(version := v), lists.(version := w));
    assert VersionId(v) == VersionId(w) <==> v == w || (v == V1_0 && w == Ssl3_0) || (v == Ssl3_0 && w == V1_0);
    assert {V1_0, Ssl3_0} == {Ssl3_0, V1_0};
    if {v, w} == {V1_0, Ssl3_0} {
      assert v in {v, w} && w in {v, w} && V1_0 in {v, w} && Ssl3_0 in {v, w};
    }
  }

  lemma {:induction false} NumbersPrintBack(parts: seq<string>)
    requires ParseNumbers(parts).Some?
    ensures PrintNumbers(ParseNumbers(parts).value) == parts
  {
    if parts != [] {
      NumbersPrintBack(parts[1..]);
      CanonicalIsDec(parts[0]);
      var rest := ParseNumbers(parts[1..]).value;
      var numbers := [ValueOf(parts[0])] + rest;
      assert ParseNumbers(parts) == Some(numbers);
      assert PrintNumbers(numbers) == [parts[0]] + PrintNumbers(rest);
      assert [parts[0]] + parts[1..] == parts;
    }
  }

  lemma ListPrintsBack(s: string)
    requires ParseList(s).Some?
    ensures PrintList(ParseList(s).value) == s
  {
    if s != "" {
      NumbersPrintBack(Split(s, '-'));
      JoinSplit(s, '-');
    }
  }

  /** The decoder accepts nothing but JA3 strings, so printing and decoding are inverse both ways. */
  lemma ParsedPrintsBack(s: string)
    requires Parse(s).Some?
    ensures Print(Parse(s).value) == s
  {
    var parts, c := Split(s, ','), Parse(s).value;
    CanonicalIsDec(parts[0]);
    ListPrintsBack(parts[1]);
    ListPrintsBack(parts[2]);
    ListPrintsBack(parts[3]);
    ListPrintsBack(parts[4]);
    PrintJoinsSections(c);
    assert Sections(c) == parts;
    JoinSplit(s, ',');
  }
}
