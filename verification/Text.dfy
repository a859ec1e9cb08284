/** The string operations the program takes from its standard libraries. */
module Text {
  import opened Wrappers

  // ----- ASCII case -----

  function LowerChar(c: char): char {
    if 'A' <= c <= 'Z' then (c as int + 32) as char else c
  }

  function Lower(s: string): (r: string)
    ensures |r| == |s| && forall i :: 0 <= i < |s| ==> r[i] == LowerChar(s[i])
  {
    seq(|s|, i requires 0 <= i < |s| => LowerChar(s[i]))
  }

  /** The letters of ASCII, and nothing else, are lowered. */
  lemma LowerExactly(c: char)
    ensures forall i :: 0 <= i < 26 ==>
      LowerChar("ABCDEFGHIJKLMNOPQRSTUVWXYZ"[i]) == "abcdefghijklmnopqrstuvwxyz"[i]
    ensures c !in "ABCDEFGHIJKLMNOPQRSTUVWXYZ" ==> LowerChar(c) == c
  {
    if 'A' <= c <= 'Z' {
      assert c == "ABCDEFGHIJKLMNOPQRSTUVWXYZ"[c as int - 65];
    }
  }

  predicate EqIgnoreCase(a: string, b: string) {
    |a| == |b| && forall i :: 0 <= i < |a| ==> LowerChar(a[i]) == LowerChar(b[i])
  }

  lemma EqIgnoreCaseIsLowerEq(a: string, b: string)
    ensures EqIgnoreCase(a, b) <==> Lower(a) == Lower(b)
  {
    if Lower(a) == Lower(b) {
      forall i | 0 <= i < |a| ensures LowerChar(a[i]) == LowerChar(b[i]) {
        assert Lower(a)[i] == Lower(b)[i];
      }
    }
  }

  lemma LowerIdempotent(s: string)
    ensures Lower(Lower(s)) == Lower(s)
  {
  }

  // ----- Trimming -----

  /** The Unicode White_Space property. */
  predicate IsWhitespace(c: char) {
    '\t' <= c <= '\r' || c == ' ' || c == '\U{85}' || c == '\U{A0}' || c == '\U{1680}' ||
      '\U{2000}' <= c <= '\U{200A}' ||
    c == '\U{2028}' || c == '\U{2029}' || c == '\U{202F}' || c == '\U{205F}' || c == '\U{3000}'
  }

  /** The twenty-five characters with that property. */
  lemma WhitespaceExactly(c: char)
    ensures IsWhitespace(c) <==>
      c as int in {9, 10, 11, 12, 13, 32, 133, 160, 5760, 8192, 8193, 8194, 8195, 8196, 8197, 8198, 8199, 8200, 8201,
        8202,
                   8232, 8233, 8239, 8287, 12288}
  {
  }

  function TrimStart(s: string): string {
    if s != [] && IsWhitespace(s[0]) then TrimStart(s[1..]) else s
  }

  function TrimEnd(s: string): string {
    if s != [] && IsWhitespace(s[|s| - 1]) then TrimEnd(s[..|s| - 1]) else s
  }

  function Trim(s: string): string {
    TrimEnd(TrimStart(s))
  }

  predicate Trimmed(s: string) {
    s == [] || (!IsWhitespace(s[0]) && !IsWhitespace(s[|s| - 1]))
  }

  lemma {:induction false} TrimStartProperties(s: string)
    ensures TrimStart(s) != [] ==> !IsWhitespace(TrimStart(s)[0])
    ensures |TrimStart(s)| <= |s|
    ensures forall c :: c in TrimStart(s) ==> c in s
    ensures TrimStart(s) == s || (s != [] && IsWhitespace(s[0]))
  {
    if s != [] && IsWhitespace(s[0]) {
      TrimStartProperties(s[1..]);
    }
  }

  lemma {:induction false} TrimEndProperties(s: string)
    ensures TrimEnd(s) != [] ==> !IsWhitespace(TrimEnd(s)[|TrimEnd(s)| - 1]) && TrimEnd(s)[0] == s[0]
    ensures |TrimEnd(s)| <= |s|
    ensures forall c :: c in TrimEnd(s) ==> c in s
    ensures TrimEnd(s) == s || (s != [] && IsWhitespace(s[|s| - 1]))
    ensures s != [] && !IsWhitespace(s[0]) ==> TrimEnd(s) != []
  {
    if s != [] && IsWhitespace(s[|s| - 1]) {
      TrimEndProperties(s[..|s| - 1]);
    }
  }

  lemma TrimIsTrimmed(s: string)
    ensures Trimmed(Trim(s))
    ensures forall c :: c in Trim(s) ==> c in s
    ensures Trimmed(s) <==> Trim(s) == s
  {
    TrimStartProperties(s);
    TrimEndProperties(TrimStart(s));
  }

  lemma {:induction false} TrimStartDropsPrefix(blank: string, s: string)
    requires forall c :: c in blank ==> IsWhitespace(c)
    ensures TrimStart(blank + s) == TrimStart(s)
  {
    if blank == [] {
      assert blank + s == s;
    } else {
      assert (blank + s)[1..] == blank[1..] + s;
      assert blank[0] in blank;
      TrimStartDropsPrefix(blank[1..], s);
    }
  }

  predicate AllBlank(s: string) {
    forall c :: c in s ==> IsWhitespace(c)
  }

  lemma {:induction false} TrimStartDrops(s: string) returns (blank: string)
    ensures s == blank + TrimStart(s) && AllBlank(blank)
  {
    if s != [] && IsWhitespace(s[0]) {
      var rest := TrimStartDrops(s[1..]);
      blank := [s[0]] + rest;
    } else {
      blank := [];
    }
  }

  lemma {:induction false} TrimEndDrops(s: string) returns (blank: string)
    ensures s == TrimEnd(s) + blank && AllBlank(blank)
  {
    if s != [] && IsWhitespace(s[|s| - 1]) {
      var rest := TrimEndDrops(s[..|s| - 1]);
      blank := rest + [s[|s| - 1]];
      assert TrimEnd(s) + blank == TrimEnd(s) + rest + [s[|s| - 1]];
    } else {
      blank := [];
    }
  }

  /** Trimming takes blanks off both ends and nothing else. */
  lemma TrimDecomposes(s: string)
    ensures Trimmed(Trim(s))
    ensures exists left, right :: s == left + Trim(s) + right && AllBlank(left) && AllBlank(right)
  {
    TrimIsTrimmed(s);
    var left := TrimStartDrops(s);
    var right := TrimEndDrops(TrimStart(s));
    assert s == left + Trim(s) + right;
  }

  lemma SpaceBeforeTrims(s: string)
    requires Trimmed(s)
    ensures Trim(" " + s) == s
  {
    TrimStartDropsPrefix(" ", s);
    TrimIsTrimmed(s);
  }

  lemma TrimmedIgnoresCase(a: string, b: string)
    requires EqIgnoreCase(a, b) && Trimmed(a)
    ensures Trimmed(b)
  {
    if b != [] {
      assert LowerChar(a[0]) == LowerChar(b[0]);
      assert LowerChar(a[|a| - 1]) == LowerChar(b[|b| - 1]);
    }
  }

  // ----- Splitting and joining -----

  /** The pieces between the separators; always at least one. */
  function Split(s: string, sep: char): (parts: seq<string>)
    ensures |parts| > 0
  {
    if s == [] then [[]]
    else if s[0] == sep then [[]] + Split(s[1..], sep)
    else var rest := Split(s[1..], sep); [[s[0]] + rest[0]] + rest[1..]
  }

  function Join(parts: seq<string>, sep: string): string {
    if parts == [] then []
    else if |parts| == 1 then parts[0]
    else parts[0] + sep + Join(parts[1..], sep)
  }

  lemma {:induction false} SplitFree(s: string, sep: char)
    requires sep !in s
    ensures Split(s, sep) == [s]
  {
    if s != [] {
      SplitFree(s[1..], sep);
      assert [s[0]] + s[1..] == s;
    }
  }

  lemma {:induction false} SplitConcat(a: string, sep: char, b: string)
    ensures Split(a + [sep] + b, sep) == Split(a, sep) + Split(b, sep)
  {
    if a == [] {
      assert a + [sep] + b == [sep] + b;
      assert ([sep] + b)[1..] == b;
    } else {
      assert (a + [sep] + b)[1..] == a[1..] + [sep] + b;
      SplitConcat(a[1..], sep, b);
    }
  }

  /** A stretch without separators that reaches from one separator, or end, to the next. */
  predicate Framed(s: string, before: string, piece: string, after: string, sep: char) {
    && s == before + piece + after && sep !in piece
    && (before == [] || before[|before| - 1] == sep)
    && (after == [] || after[0] == sep)
  }

  ghost predicate IsPiece(s: string, piece: string, sep: char) {
    exists before, after :: Framed(s, before, piece, after, sep)
  }

  /** One character more in front of what is before a piece. */
  lemma FrameMoves(s: string, before: string, piece: string, after: string, sep: char)
    requires s != [] && Framed(s[1..], before, piece, after, sep) && (before != [] || s[0] == sep)
    ensures Framed(s, [s[0]] + before, piece, after, sep)
  {
    assert s == [s[0]] + s[1..];
    assert [s[0]] + (before + piece + after) == [s[0]] + before + piece + after;
  }

  /** One character more in front of a piece that begins the string. */
  lemma FrameGrows(s: string, piece: string, after: string, sep: char)
    requires s != [] && Framed(s[1..], [], piece, after, sep) && s[0] != sep
    ensures Framed(s, [], [s[0]] + piece, after, sep)
  {
    assert s == [s[0]] + s[1..];
    assert s[1..] == piece + after by { assert [] + piece + after == piece + after; }
    assert [s[0]] + (piece + after) == [] + ([s[0]] + piece) + after;
  }

  lemma {:induction false} PieceAt(s: string, sep: char, i: nat) returns (before: string, after: string)
    requires i < |Split(s, sep)|
    ensures Framed(s, before, Split(s, sep)[i], after, sep) && (i == 0 <==> before == [])
  {
    if s == [] {
      before, after := [], [];
    } else if s[0] == sep && i == 0 {
      before, after := [], s;
    } else if s[0] == sep {
      var front, rest := PieceAt(s[1..], sep, i - 1);
      assert Split(s, sep)[i] == Split(s[1..], sep)[i - 1];
      FrameMoves(s, front, Split(s[1..], sep)[i - 1], rest, sep);
      before, after := [s[0]] + front, rest;
    } else if i == 0 {
      var front, rest := PieceAt(s[1..], sep, 0);
      FrameGrows(s, Split(s[1..], sep)[0], rest, sep);
      before, after := [], rest;
    } else {
      var front, rest := PieceAt(s[1..], sep, i);
      assert Split(s, sep)[i] == Split(s[1..], sep)[i];
      FrameMoves(s, front, Split(s[1..], sep)[i], rest, sep);
      before, after := [s[0]] + front, rest;
    }
  }

  lemma PieceThenRest(piece: string, after: string, sep: char)
    requires sep !in piece && (after == [] || after[0] == sep)
    ensures Split(piece + after, sep)[0] == piece
  {
    SplitFree(piece, sep);
    if after == [] {
      assert piece + after == piece;
    } else {
      assert piece + after == piece + [sep] + after[1..];
      SplitConcat(piece, sep, after[1..]);
    }
  }

  lemma FramedIsSplit(s: string, before: string, piece: string, after: string, sep: char)
    requires Framed(s, before, piece, after, sep)
    ensures piece in Split(s, sep)
  {
    var rest := piece + after;
    PieceThenRest(piece, after, sep);
    if before == [] {
      assert s == rest;
    } else {
      var front := before[..|before| - 1];
      assert s == front + [sep] + rest;
      SplitConcat(front, sep, rest);
      assert Split(rest, sep)[0] in Split(front, sep) + Split(rest, sep);
    }
  }

  /** Splitting yields exactly the stretches between separators. */
  lemma SplitIsPieces(s: string, piece: string, sep: char)
    ensures piece in Split(s, sep) <==> IsPiece(s, piece, sep)
  {
    if piece in Split(s, sep) {
      var i :| 0 <= i < |Split(s, sep)| && Split(s, sep)[i] == piece;
      var before, after := PieceAt(s, sep, i);
    }
    if before, after :| Framed(s, before, piece, after, sep) {
      FramedIsSplit(s, before, piece, after, sep);
    }
  }

  lemma {:induction false} SplitJoin(parts: seq<string>, sep: char)
    requires parts != [] && forall p :: p in parts ==> sep !in p
    ensures Split(Join(parts, [sep]), sep) == parts
  {
    assert parts[0] in parts;
    SplitFree(parts[0], sep);
    if |parts| > 1 {
      SplitConcat(parts[0], sep, Join(parts[1..], [sep]));
      SplitJoin(parts[1..], sep);
      assert [parts[0]] + parts[1..] == parts;
    }
  }

  lemma {:induction false} JoinSplit(s: string, sep: char)
    ensures Join(Split(s, sep), [sep]) == s
  {
    if s != [] {
      var rest := Split(s[1..], sep);
      JoinSplit(s[1..], sep);
      if s[0] == sep {
        assert ([[]] + rest)[1..] == rest;
        assert [] + [sep] + Join(rest, [sep]) == [sep] + s[1..];
      } else {
        var parts := [[s[0]] + rest[0]] + rest[1..];
        assert parts == Split(s, sep);
        if |rest| == 1 {
          assert Join(parts, [sep]) == [s[0]] + rest[0];
        } else {
          assert parts[1..] == rest[1..];
          assert Join(parts, [sep]) == [s[0]] + (rest[0] + [sep] + Join(rest[1..], [sep]));
        }
      }
    }
  }

  /** Around the first separator, if there is one. */
  function SplitOnce(s: string, sep: char): Option<(string, string)> {
    if s == [] then None
    else if s[0] == sep then Some(([], s[1..]))
    else match SplitOnce(s[1..], sep)
      case None => None
      case Some(p) => Some(([s[0]] + p.0, p.1))
  }

  lemma {:induction false} SplitOnceAt(before: string, sep: char, after: string)
    requires sep !in before
    ensures SplitOnce(before + [sep] + after, sep) == Some((before, after))
  {
    var s := before + [sep] + after;
    if before == [] {
      assert s[1..] == after;
    } else {
      assert s[1..] == before[1..] + [sep] + after;
      SplitOnceAt(before[1..], sep, after);
      assert [before[0]] + before[1..] == before;
    }
  }

  // ----- Decimal numbers -----

  predicate IsDigit(c: char) {
    '0' <= c <= '9'
  }

  function Digit(d: nat): char
    requires d < 10
  {
    ('0' as int + d) as char
  }

  function DigitValue(c: char): nat
    requires IsDigit(c)
  {
    c as int - '0' as int
  }

  /** The decimal display of a number. */
  function Dec(n: nat): string {
    if n < 10 then [Digit(n)] else Dec(n / 10) + [Digit(n % 10)]
  }

  /** The most significant digit comes first. */
  lemma DecExactly(tens: nat, ones: nat)
    requires ones <= 9
    ensures tens > 0 ==> Dec(10 * tens + ones) == Dec(tens) + ["0123456789"[ones]]
    ensures Dec(ones) == ["0123456789"[ones]]
  {
    var n := 10 * tens + ones;
    assert n / 10 == tens && n % 10 == ones;
  }

  predicate AllDigits(s: string) {
    forall c :: c in s ==> IsDigit(c)
  }

  function ValueOf(s: string): nat
    requires AllDigits(s)
  {
    if s == [] then 0 else 10 * ValueOf(s[..|s| - 1]) + DigitValue(s[|s| - 1])
  }

  lemma {:induction false} DecRoundTrip(n: nat)
    ensures Dec(n) != [] && AllDigits(Dec(n)) && ValueOf(Dec(n)) == n
    ensures Dec(n)[0] == '0' ==> n == 0
  {
    if n >= 10 {
      DecRoundTrip(n / 10);
      assert Dec(n)[..|Dec(n)| - 1] == Dec(n / 10);
    } else {
      assert Dec(n)[..0] == [];
    }
  }

  /** A display has no leading zero, so a canonical numeral is the display of its value. */
  predicate Canonical(s: string) {
    s != [] && AllDigits(s) && (s[0] == '0' ==> |s| == 1)
  }

  lemma DecIsCanonical(n: nat)
    ensures Canonical(Dec(n))
  {
    DecRoundTrip(n);
  }

  lemma {:induction false} CanonicalIsDec(s: string)
    requires Canonical(s)
    ensures Dec(ValueOf(s)) == s
    ensures |s| > 1 ==> ValueOf(s) >= 10
  {
    var front, last := s[..|s| - 1], s[|s| - 1];
    assert last in s && s == front + [last];
    if front == [] {
      assert Digit(DigitValue(last)) == last && ValueOf(front) == 0;
    } else {
      assert front[0] == s[0] && forall c :: c in front ==> c in s;
      CanonicalIsDec(front);
      assert ValueOf(front) > 0 by {
        if |front| == 1 {
          assert front[..0] == [];
        }
      }
      assert ValueOf(s) == 10 * ValueOf(front) + DigitValue(last);
      assert ValueOf(s) / 10 == ValueOf(front) && ValueOf(s) % 10 == DigitValue(last);
      assert Digit(DigitValue(last)) == last;
    }
  }

  /** Parsing an unsigned integer: an optional plus sign, then at least one digit, within the limit. */
  function ParseUnsigned(s: string, limit: nat): Option<nat> {
    var digits := if s != [] && s[0] == '+' then s[1..] else s;
    if digits != [] && AllDigits(digits) && ValueOf(digits) <= limit then Some(ValueOf(digits)) else None
  }

  /**
   A printed number is read back up to the limit, also with a plus sign, and nothing else is read of a sign or of no
   digits.
   */
  lemma ParseUnsignedReads(n: nat, limit: nat)
    ensures ParseUnsigned(Dec(n), limit) == if n <= limit then Some(n) else None
    ensures ParseUnsigned("+" + Dec(n), limit) == if n <= limit then Some(n) else None
    ensures ParseUnsigned("-" + Dec(n), limit) == None && ParseUnsigned("", limit) == ParseUnsigned("+", limit) == None
  {
    DecRoundTrip(n);
    assert Dec(n)[0] in Dec(n);
    assert ("+" + Dec(n))[1..] == Dec(n);
    assert "+"[1..] == "";
    assert '-' in "-" + Dec(n) by { assert ("-" + Dec(n))[0] == '-'; }
  }

  // ----- Lengths in bytes -----

  function Utf8Width(c: char): nat {
    if c < '\U{80}' then 1 else if c < '\U{800}' then 2 else if c < '\U{10000}' then 3 else 4
  }

  /** The length of a string as the program counts it, in bytes of UTF-8. */
  function Utf8Len(s: string): nat {
    if s == [] then 0 else Utf8Width(s[0]) + Utf8Len(s[1..])
  }

  lemma {:induction false} Utf8LenOfAscii(s: string)
    requires forall c :: c in s ==> c < '\U{80}'
    ensures Utf8Len(s) == |s|
  {
    if s != [] {
      assert s[0] in s && forall c :: c in s[1..] ==> c in s;
      Utf8LenOfAscii(s[1..]);
    }
  }
}
