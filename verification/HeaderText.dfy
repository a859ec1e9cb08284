/** Headers as lines of text on the buffered API: printing a response and parsing the lines of a request. */
module HeaderText {
  import opened Wrappers
  import opened Text
  import opened HeaderMap

  const TRANSFER_ENCODING := "transfer-encoding"
  const MAX_NAME_LEN := 65535

  /** The token characters of section 5.6.2 of RFC 9110. */
  predicate IsTokenChar(c: char) {
    'a' <= c <= 'z' || 'A' <= c <= 'Z' || IsDigit(c) || c in "!#$%&'*+-.^_`|~"
  }

  predicate IsName(s: string) {
    1 <= |s| <= MAX_NAME_LEN && forall c :: c in s ==> IsTokenChar(c)
  }

  /** Names are kept in lower case. */
  function ParseName(s: string): Option<string> {
    if IsName(s) then Some(Lower(s)) else None
  }

  predicate IsValueChar(c: char) {
    (c >= ' ' && c != '\U{7F}') || c == '\t'
  }

  function ParseValue(s: string): Option<Value> {
    if forall c :: c in s ==> IsValueChar(c) then Some(Utf8(s)) else None
  }

  function ParseLine(line: string): Option<Field> {
    match SplitOnce(line, ':')
    case None => None
    case Some(p) =>
      match (ParseName(Trim(p.0)), ParseValue(Trim(p.1)))
      case (Some(name), Some(value)) => Some(Field(name, value))
      case _ => None
  }

  function ParseFields(lines: seq<string>): seq<Field> {
    if lines == [] then []
    else (match ParseLine(lines[0]) case Some(f) => [f] case None => []) + ParseFields(lines[1..])
  }

  function ParseLines(lines: seq<string>): Entries {
    AppendAll([], ParseFields(lines))
  }

  /** `lossy` decodes octets that are not UTF-8. */
  function PrintField(f: Field, lossy: seq<bv8> -> string): string {
    f.name + ": " + match f.value case Utf8(text) => text case Octets(bytes) => lossy(bytes)
  }

  function PrintFields(fields: seq<Field>, lossy: seq<bv8> -> string): seq<string> {
    if fields == [] then [] else [PrintField(fields[0], lossy)] + PrintFields(fields[1..], lossy)
  }

  predicate IsPrinted(name: string) {
    name != TRANSFER_ENCODING
  }

  function Print(m: Entries, lossy: seq<bv8> -> string): seq<string> {
    PrintFields(KeepFields(Fields(m), IsPrinted), lossy)
  }

  /**
   What the HTTP library guarantees of any header map: names are lower-case tokens, values have no control characters.
   */
  predicate FieldWellFormed(f: Field) {
    IsName(f.name) && Lower(f.name) == f.name && (f.value.Utf8? ==> forall c :: c in f.value.text ==> IsValueChar(c))
  }

  ghost predicate WellFormed(m: Entries) {
    Valid(m) && forall f :: f in Fields(m) ==> FieldWellFormed(f)
  }

  /** The values a line of text can carry: UTF-8 without blanks at either end. */
  predicate Carried(v: Value) {
    v.Utf8? && Trimmed(v.text)
  }

  ghost predicate AllCarried(m: Entries) {
    forall i, k :: 0 <= i < |m| && 0 <= k < |m[i].values| ==> Carried(m[i].values[k])
  }

  lemma NameHasNoColon(name: string)
    requires IsName(name)
    ensures ':' !in name && Trimmed(name)
  {
    assert !IsTokenChar(':');
    assert name[0] in name && name[|name| - 1] in name;
  }

  /** The token characters are the visible ones of ASCII but for the delimiters (section 5.6.2 of RFC 9110). */
  lemma TokenCharsExactly(c: char)
    ensures IsTokenChar(c) <==> '!' <= c <= '~' && c !in "\"(),/:;<=>?@[\\]{}"
  {
  }

  /** Values have no control characters but the tab (section 5.5 of RFC 9110). */
  lemma ValueCharsExactly(c: char)
    ensures !IsValueChar(c) <==> (c as int < 32 && c as int != 9) || c as int == 127
  {
  }

  /** A line is read up to its first colon: blanks are trimmed on both sides, and the name is lowered. */
  lemma LineExactly(before: string, after: string)
    requires ':' !in before
    ensures ParseLine(before) == None
    ensures ParseLine(before + ":" + after) ==
      if IsName(Trim(before)) && (forall c :: c in Trim(after) ==> IsValueChar(c)) then
        Some(Field(Lower(Trim(before)), Utf8(Trim(after))))
      else None
  {
    SplitOnceAt(before, ':', after);
    assert before + ":" + after == before + [':'] + after;
    SplitOnceFree(before, ':');
  }

  lemma {:induction false} SplitOnceFree(s: string, sep: char)
    requires sep !in s
    ensures SplitOnce(s, sep) == None
  {
    if s != [] {
      SplitOnceFree(s[1..], sep);
    }
  }

  lemma SpellingIsName(a: string, b: string)
    requires IsName(a) && EqIgnoreCase(a, b)
    ensures IsName(b) && Lower(b) == Lower(a)
  {
    EqIgnoreCaseIsLowerEq(a, b);
    forall c | c in b ensures IsTokenChar(c) {
      var i :| 0 <= i < |b| && b[i] == c;
      assert a[i] in a && LowerChar(a[i]) == LowerChar(c);
    }
  }

  /** A name is read the same in whatever case it is written. */
  lemma CaseIsIgnored(a: string, b: string, after: string)
    requires IsName(a) && EqIgnoreCase(a, b)
    ensures ParseLine(a + ":" + after) == ParseLine(b + ":" + after)
  {
    SpellingIsName(a, b);
    NameHasNoColon(a);
    NameHasNoColon(b);
    TrimIsTrimmed(a);
    TrimIsTrimmed(b);
    LineExactly(a, after);
    LineExactly(b, after);
  }

  /** A printed line is the name, a colon, one space and the value. */
  lemma {:induction false} PrintedExactly(fields: seq<Field>, lossy: seq<bv8> -> string, i: nat)
    requires i < |fields|
    ensures |PrintFields(fields, lossy)| == |fields|
    ensures fields[i].value.Utf8? ==> PrintFields(fields, lossy)[i] == fields[i].name + ": " + fields[i].value.text
    ensures fields[i].value.Octets? ==>
      PrintFields(fields, lossy)[i] == fields[i].name + ": " + lossy(fields[i].value.bytes)
  {
    if i > 0 {
      PrintedExactly(fields[1..], lossy, i - 1);
    } else if |fields| > 1 {
      PrintedExactly(fields[1..], lossy, 0);
    }
  }

  /** One line round trips. */
  lemma LineRoundTrip(f: Field, lossy: seq<bv8> -> string)
    requires FieldWellFormed(f) && Carried(f.value)
    ensures ParseLine(PrintField(f, lossy)) == Some(f)
  {
    NameHasNoColon(f.name);
    var text := f.value.text;
    assert PrintField(f, lossy) == f.name + [':'] + (" " + text);
    SplitOnceAt(f.name, ':', " " + text);
    TrimIsTrimmed(f.name);
    SpaceBeforeTrims(text);
  }

  lemma {:induction false} FieldsRoundTrip(fields: seq<Field>, lossy: seq<bv8> -> string)
    requires forall f :: f in fields ==> FieldWellFormed(f) && Carried(f.value)
    ensures ParseFields(PrintFields(fields, lossy)) == fields
  {
    if fields != [] {
      var first, rest := fields[0], PrintFields(fields[1..], lossy);
      assert first in fields;
      LineRoundTrip(first, lossy);
      FieldsRoundTrip(fields[1..], lossy);
      assert PrintFields(fields, lossy) == [PrintField(first, lossy)] + rest;
      ParseFirst(PrintField(first, lossy), rest, first);
      assert [first] + fields[1..] == fields;
    }
  }

  lemma ParseFirst(line: string, rest: seq<string>, f: Field)
    requires ParseLine(line) == Some(f)
    ensures ParseFields([line] + rest) == [f] + ParseFields(rest)
  {
    assert ([line] + rest)[1..] == rest;
  }

  /** Whatever is parsed is carried: the parser never makes a value that is not trimmed UTF-8. */
  lemma {:induction false} ParsedFieldsAreCarried(lines: seq<string>)
    ensures forall f :: f in ParseFields(lines) ==> Carried(f.value) && FieldWellFormed(f)
  {
    if lines != [] {
      ParsedFieldsAreCarried(lines[1..]);
      if ParseLine(lines[0]).Some? {
        var p := SplitOnce(lines[0], ':').value;
        TrimIsTrimmed(p.1);
        LoweredName(Trim(p.0));
      }
    }
  }

  lemma LoweredName(s: string)
    requires IsName(s)
    ensures IsName(Lower(s)) && Lower(Lower(s)) == Lower(s)
  {
    LowerIdempotent(s);
    forall c | c in Lower(s) ensures IsTokenChar(c) {
      var i :| 0 <= i < |s| && Lower(s)[i] == c;
      assert s[i] in s && c == LowerChar(s[i]);
    }
  }

  lemma {:induction false} AppendCarried(m: Entries, name: string, v: Value)
    requires AllCarried(m) && Carried(v)
    ensures AllCarried(Append(m, name, v))
  {
    if m != [] && m[0].name != name {
      assert forall i :: 0 <= i < |m[1..]| ==> m[1..][i] == m[i + 1];
      AppendCarried(m[1..], name, v);
      var rest := Append(m[1..], name, v);
      assert forall i :: 0 < i < |[m[0]] + rest| ==> ([m[0]] + rest)[i] == rest[i - 1];
    }
  }

  lemma {:induction false} AppendAllCarried(m: Entries, fields: seq<Field>)
    requires AllCarried(m) && forall f :: f in fields ==> Carried(f.value)
    ensures AllCarried(AppendAll(m, fields))
    decreases |fields|
  {
    if fields != [] {
      assert fields[0] in fields;
      AppendCarried(m, fields[0].name, fields[0].value);
      AppendAllCarried(Append(m, fields[0].name, fields[0].value), fields[1..]);
    }
  }

  lemma {:induction false} EntryFieldsCarried(name: string, values: seq<Value>)
    ensures (forall f :: f in EntryFields(name, values) ==> Carried(f.value)) <==>
      (forall k :: 0 <= k < |values| ==> Carried(values[k]))
  {
    if values != [] {
      EntryFieldsCarried(name, values[1..]);
      var rest := EntryFields(name, values[1..]);
      assert EntryFields(name, values) == [Field(name, values[0])] + rest;
      assert Field(name, values[0]) in EntryFields(name, values);
      assert forall f :: f in rest ==> f in EntryFields(name, values);
      assert forall k :: 0 <= k < |values[1..]| ==> values[1..][k] == values[k + 1];
      assert forall k :: 0 < k < |values| ==> values[k] == values[1..][k - 1];
    }
  }

  lemma {:induction false} FieldsCarried(m: Entries)
    requires AllCarried(m)
    ensures forall f :: f in Fields(m) ==> Carried(f.value)
  {
    if m != [] {
      assert forall i :: 0 <= i < |m[1..]| ==> m[1..][i] == m[i + 1];
      FieldsCarried(m[1..]);
      EntryFieldsCarried(m[0].name, m[0].values);
    }
  }

  lemma {:induction false} KeptFieldsAreFields(fields: seq<Field>, keep: string -> bool)
    ensures forall f :: f in KeepFields(fields, keep) ==> f in fields
  {
    if fields != [] {
      KeptFieldsAreFields(fields[1..], keep);
    }
  }

  /**
   Printing a header map and parsing the lines gives the map back without transfer-encoding, repeated names and values
   with colons included, exactly when every other value is UTF-8 without blanks at either end.
   */
  lemma RoundTrip(m: Entries, lossy: seq<bv8> -> string)
    requires WellFormed(m)
    ensures ParseLines(Print(m, lossy)) == Keep(m, IsPrinted) <==> AllCarried(Keep(m, IsPrinted))
  {
    var kept := Keep(m, IsPrinted);
    KeepValid(m, IsPrinted);
    KeepIsKeepFields(m, IsPrinted);
    if AllCarried(kept) {
      FieldsCarried(kept);
      KeptFieldsAreFields(Fields(m), IsPrinted);
      FieldsRoundTrip(Fields(kept), lossy);
      RebuildOnto([], kept);
    } else {
      ParsedFieldsAreCarried(Print(m, lossy));
      AppendAllCarried([], ParseFields(Print(m, lossy)));
    }
  }

  /** A value that begins with a blank comes back without it. */
  lemma LeadingBlankIsLost(lossy: seq<bv8> -> string)
    ensures var m := [Entry("etag", [Utf8(" a")])];
      WellFormed(m) && ParseLines(Print(m, lossy)) != Keep(m, IsPrinted)
  {
    var m := [Entry("etag", [Utf8(" a")])];
    assert EntryFields("etag", [Utf8(" a")]) == [Field("etag", Utf8(" a"))] + EntryFields("etag", [Utf8(" a")][1..]);
    assert Fields(m) == [Field("etag", Utf8(" a"))] + Fields(m[1..]);
    assert |"etag"| != |TRANSFER_ENCODING|;
    assert Keep(m, IsPrinted) == m + Keep(m[1..], IsPrinted);
    assert !Carried(Keep(m, IsPrinted)[0].values[0]);
    RoundTrip(m, lossy);
  }

  lemma {:induction false} AppendHas(m: Entries, name: string, v: Value, other: string)
    ensures Has(Append(m, name, v), other) <==> Has(m, other) || other == name
  {
    if m == [] {
      HasOne(Entry(name, [v]), other);
    } else if m[0].name == name {
      HasConcat([Entry(name, m[0].values + [v])], m[1..], other);
      HasOne(Entry(name, m[0].values + [v]), other);
      HasConcat([m[0]], m[1..], other);
      HasOne(m[0], other);
      assert [m[0]] + m[1..] == m;
    } else {
      AppendHas(m[1..], name, v, other);
      HasConcat([m[0]], Append(m[1..], name, v), other);
      HasConcat([m[0]], m[1..], other);
      assert [m[0]] + m[1..] == m;
    }
  }

  lemma {:induction false} AppendValid(m: Entries, name: string, v: Value)
    requires Valid(m)
    ensures Valid(Append(m, name, v))
  {
    if m != [] && m[0].name != name {
      assert Valid(m[1..]);
      AppendValid(m[1..], name, v);
      AppendHas(m[1..], name, v, m[0].name);
      var rest := Append(m[1..], name, v);
      assert !Has(m[1..], m[0].name);
      assert forall i :: 0 <= i < |rest| ==> rest[i].name != m[0].name;
    }
  }

  lemma {:induction false} EntryFieldsConcat(name: string, a: seq<Value>, b: seq<Value>)
    ensures EntryFields(name, a + b) == EntryFields(name, a) + EntryFields(name, b)
  {
    if a == [] {
      assert a + b == b;
    } else {
      assert (a + b)[1..] == a[1..] + b;
      EntryFieldsConcat(name, a[1..], b);
    }
  }

  lemma {:induction false} AppendFields(m: Entries, name: string, v: Value)
    ensures forall f :: f in Fields(Append(m, name, v)) ==> f in Fields(m) || f == Field(name, v)
  {
    var one := Field(name, v);
    assert EntryFields(name, [v]) == [one] + EntryFields(name, [v][1..]);
    if m == [] {
    } else if m[0].name == name {
      EntryFieldsConcat(name, m[0].values, [v]);
      assert ([Entry(name, m[0].values + [v])] + m[1..])[1..] == m[1..];
    } else {
      AppendFields(m[1..], name, v);
      assert ([m[0]] + Append(m[1..], name, v))[1..] == Append(m[1..], name, v);
    }
  }

  lemma {:induction false} AppendAllWellFormed(m: Entries, fields: seq<Field>)
    requires WellFormed(m) && forall f :: f in fields ==> FieldWellFormed(f)
    ensures WellFormed(AppendAll(m, fields))
    decreases |fields|
  {
    if fields != [] {
      assert fields[0] in fields;
      AppendValid(m, fields[0].name, fields[0].value);
      AppendFields(m, fields[0].name, fields[0].value);
      AppendAllWellFormed(Append(m, fields[0].name, fields[0].value), fields[1..]);
    }
  }

  lemma {:induction false} KeepCarried(m: Entries, keep: string -> bool)
    requires AllCarried(m)
    ensures AllCarried(Keep(m, keep))
  {
    if m != [] {
      assert forall i :: 0 <= i < |m[1..]| ==> m[1..][i] == m[i + 1];
      KeepCarried(m[1..], keep);
    }
  }

  /** For any lines at all, what they parse to is a well-formed map that printing and parsing reproduces. */
  lemma ParsingNormalizes(lines: seq<string>, lossy: seq<bv8> -> string)
    ensures WellFormed(ParseLines(lines))
    ensures ParseLines(Print(ParseLines(lines), lossy)) == Keep(ParseLines(lines), IsPrinted)
  {
    ParsedFieldsAreCarried(lines);
    AppendAllWellFormed([], ParseFields(lines));
    AppendAllCarried([], ParseFields(lines));
    KeepCarried(ParseLines(lines), IsPrinted);
    RoundTrip(ParseLines(lines), lossy);
  }

  // ----- The parser as it runs -----

  method BuildForwardHeaders(lines: seq<string>) returns (headers: Headers)
    ensures fresh(headers) && headers.entries == ParseLines(lines) && Valid(headers.entries) &&
      AllCarried(headers.entries)
  {
    headers := new Headers();
    for i := 0 to |lines|
      invariant fresh(headers) && Valid(headers.entries)
      invariant AppendAll(headers.entries, ParseFields(lines[i..])) == ParseLines(lines)
    {
      assert lines[i..][0] == lines[i] && lines[i..][1..] == lines[i + 1..];
      match ParseLine(lines[i]) {
        case Some(f) =>
          assert ([f] + ParseFields(lines[i + 1..]))[1..] == ParseFields(lines[i + 1..]);
          AppendValid(headers.entries, f.name, f.value);
          headers.AppendField(f.name, f.value);
        case None =>
          assert [] + ParseFields(lines[i + 1..]) == ParseFields(lines[i + 1..]);
      }
    }
    ParsedFieldsAreCarried(lines);
    AppendAllCarried([], ParseFields(lines));
  }
}
