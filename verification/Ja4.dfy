/** Recognising a JA4 fingerprint by splitting it at its underscores. */
module Ja4 {
  import opened Text

  predicate IsAlphanumeric(c: char) {
    'a' <= c <= 'z' || 'A' <= c <= 'Z' || IsDigit(c)
  }

  predicate IsHexDigit(c: char) {
    'a' <= c <= 'f' || 'A' <= c <= 'F' || IsDigit(c)
  }

  predicate IsPrefix(s: string) {
    Utf8Len(s) == 10 && (forall c :: c in s ==> c < '\U{80}') && forall c :: c in s ==> IsAlphanumeric(c)
  }

  predicate IsHash(s: string) {
    Utf8Len(s) == 12 && forall c :: c in s ==> IsHexDigit(c)
  }

  predicate IsValidJa4(value: string) {
    var parts := Split(value, '_');
    |parts| == 3 && IsPrefix(parts[0]) && IsHash(parts[1]) && IsHash(parts[2])
  }

  /** The shape character by character. */
  predicate HasJa4Shape(value: string) {
    && |value| == 36 && value[10] == '_' && value[23] == '_'
    && (forall i :: 0 <= i < 10 ==>
          'a' <= value[i] <= 'z' || 'A' <= value[i] <= 'Z' || '0' <= value[i] <= '9')
    && (forall i :: 11 <= i < 36 && i != 23 ==>
          'a' <= value[i] <= 'f' || 'A' <= value[i] <= 'F' || '0' <= value[i] <= '9')
  }

  lemma PrefixLength(s: string)
    ensures IsPrefix(s) <==> |s| == 10 && forall i :: 0 <= i < |s| ==> IsAlphanumeric(s[i])
  {
    if IsPrefix(s) || (forall i :: 0 <= i < |s| ==> IsAlphanumeric(s[i])) {
      assert forall i :: 0 <= i < |s| ==> s[i] in s;
      Utf8LenOfAscii(s);
    }
  }

  lemma HashLength(s: string)
    ensures IsHash(s) <==> |s| == 12 && forall i :: 0 <= i < |s| ==> IsHexDigit(s[i])
  {
    if forall c :: c in s ==> IsHexDigit(c) {
      assert forall i :: 0 <= i < |s| ==> s[i] in s;
      Utf8LenOfAscii(s);
    }
  }

  lemma ThreeParts(value: string, a: string, b: string, c: string)
    requires '_' !in a && '_' !in b && '_' !in c && value == a + ['_'] + (b + ['_'] + c)
    ensures Split(value, '_') == [a, b, c]
  {
    SplitConcat(a, '_', b + ['_'] + c);
    SplitConcat(b, '_', c);
    SplitFree(a, '_');
    SplitFree(b, '_');
    SplitFree(c, '_');
  }

  lemma ValidHasShape(value: string)
    requires IsValidJa4(value)
    ensures HasJa4Shape(value)
  {
    var parts := Split(value, '_');
    var a, b, c := parts[0], parts[1], parts[2];
    JoinSplit(value, '_');
    assert parts[1..] == [b, c] && parts[1..][1..] == [c];
    assert Join([b, c], ['_']) == b + ['_'] + c;
    assert value == a + ['_'] + (b + ['_'] + c);
    PrefixLength(a);
    HashLength(b);
    HashLength(c);
    assert forall i :: 0 <= i < 10 ==> value[i] == a[i];
    assert forall i :: 11 <= i < 23 ==> value[i] == b[i - 11];
    assert forall i :: 24 <= i < 36 ==> value[i] == c[i - 24];
  }

  lemma ShapeIsValid(value: string)
    requires HasJa4Shape(value)
    ensures IsValidJa4(value)
  {
    var a, b, c := value[..10], value[11..23], value[24..];
    PrefixLength(a);
    HashLength(b);
    HashLength(c);
    assert value == a + ['_'] + (b + ['_'] + c);
    ThreeParts(value, a, b, c);
  }

  /** The recogniser accepts exactly the strings of that shape, over all strings. */
  lemma RecogniserIsExact(value: string)
    ensures IsValidJa4(value) <==> HasJa4Shape(value)
  {
    if IsValidJa4(value) {
      ValidHasShape(value);
    }
    if HasJa4Shape(value) {
      ShapeIsValid(value);
    }
  }
}
