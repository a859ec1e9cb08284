/**
 Header maps as the HTTP library keeps them: one entry per lower-case name, in order of first appearance,
 with all values of that name in order. Iterating yields one field per value.
 */
module HeaderMap {
  import opened Wrappers

  /** A value is either the UTF-8 of some text, or octets that are not UTF-8. */
  datatype Value = Utf8(text: string) | Octets(bytes: seq<bv8>)

  datatype Entry = Entry(name: string, values: seq<Value>)

  type Entries = seq<Entry>

  datatype Field = Field(name: string, value: Value)

  predicate IsVisible(c: char) {
    ' ' <= c <= '~' || c == '\t'
  }

  /** A value reads as text only if it is visible ASCII. */
  function ToStr(v: Value): Option<string> {
    if v.Utf8? && forall c :: c in v.text ==> IsVisible(c) then Some(v.text) else None
  }

  /** Reading as text takes UTF-8 and leaves out control characters but the tab, and everything beyond ASCII. */
  lemma ToStrExactly(v: Value)
    ensures ToStr(v).Some? <==> v.Utf8? && forall c :: c in v.text ==> 32 <= c as int <= 126 || c as int == 9
    ensures ToStr(v).Some? ==> ToStr(v).value == v.text
  {
  }

  ghost predicate Valid(m: Entries) {
    && (forall i :: 0 <= i < |m| ==> m[i].values != [])
    && (forall i, k :: 0 <= i < k < |m| ==> m[i].name != m[k].name)
  }

  predicate Has(m: Entries, name: string) {
    exists i :: 0 <= i < |m| && m[i].name == name
  }

  function GetAll(m: Entries, name: string): seq<Value> {
    if m == [] then [] else if m[0].name == name then m[0].values else GetAll(m[1..], name)
  }

  function Append(m: Entries, name: string, v: Value): Entries {
    if m == [] then [Entry(name, [v])]
    else if m[0].name == name then [Entry(name, m[0].values + [v])] + m[1..]
    else [m[0]] + Append(m[1..], name, v)
  }

  /** Replace every value of the name; a new name goes last. */
  function Insert(m: Entries, name: string, v: Value): Entries {
    if m == [] then [Entry(name, [v])]
    else if m[0].name == name then [Entry(name, [v])] + m[1..]
    else [m[0]] + Insert(m[1..], name, v)
  }

  function EntryFields(name: string, values: seq<Value>): seq<Field> {
    if values == [] then [] else [Field(name, values[0])] + EntryFields(name, values[1..])
  }

  function Fields(m: Entries): seq<Field> {
    if m == [] then [] else EntryFields(m[0].name, m[0].values) + Fields(m[1..])
  }

  function AppendAll(m: Entries, fields: seq<Field>): Entries
    decreases |fields|
  {
    if fields == [] then m else AppendAll(Append(m, fields[0].name, fields[0].value), fields[1..])
  }

  function KeepFields(fields: seq<Field>, keep: string -> bool): seq<Field> {
    if fields == [] then [] else (if keep(fields[0].name) then [fields[0]] else []) + KeepFields(fields[1..], keep)
  }

  function Keep(m: Entries, keep: string -> bool): Entries {
    if m == [] then [] else (if keep(m[0].name) then [m[0]] else []) + Keep(m[1..], keep)
  }

  // ----- Appending and inserting -----

  lemma {:induction false} AppendNew(m: Entries, name: string, v: Value)
    requires !Has(m, name)
    ensures Append(m, name, v) == m + [Entry(name, [v])]
  {
    if m != [] {
      assert m[0].name != name;
      assert forall i :: 0 <= i < |m[1..]| ==> m[1..][i] == m[i + 1];
      AppendNew(m[1..], name, v);
    }
  }

  lemma {:induction false} InsertNew(m: Entries, name: string, v: Value)
    requires !Has(m, name)
    ensures Insert(m, name, v) == m + [Entry(name, [v])]
  {
    if m != [] {
      assert m[0].name != name;
      assert forall i :: 0 <= i < |m[1..]| ==> m[1..][i] == m[i + 1];
      InsertNew(m[1..], name, v);
    }
  }

  lemma {:induction false} AppendLast(m: Entries, e: Entry, v: Value)
    requires !Has(m, e.name)
    ensures Append(m + [e], e.name, v) == m + [Entry(e.name, e.values + [v])]
  {
    if m == [] {
      assert [e][1..] == [];
    } else {
      assert m[0].name != e.name;
      assert forall i :: 0 <= i < |m[1..]| ==> m[1..][i] == m[i + 1];
      assert (m + [e])[1..] == m[1..] + [e];
      AppendLast(m[1..], e, v);
    }
  }

  lemma {:induction false} AppendRest(m: Entries, e: Entry, values: seq<Value>)
    requires !Has(m, e.name)
    ensures AppendAll(m + [e], EntryFields(e.name, values)) == m + [Entry(e.name, e.values + values)]
    decreases |values|
  {
    if values == [] {
      assert e.values + values == e.values;
    } else {
      var fields := EntryFields(e.name, values);
      assert fields[1..] == EntryFields(e.name, values[1..]);
      AppendLast(m, e, values[0]);
      AppendRest(m, Entry(e.name, e.values + [values[0]]), values[1..]);
      assert e.values + [values[0]] + values[1..] == e.values + values;
    }
  }

  /** Appending all fields of one new entry adds that entry. */
  lemma AppendEntry(m: Entries, e: Entry)
    requires !Has(m, e.name) && e.values != []
    ensures AppendAll(m, EntryFields(e.name, e.values)) == m + [e]
  {
    var fields := EntryFields(e.name, e.values);
    assert fields[1..] == EntryFields(e.name, e.values[1..]);
    AppendNew(m, e.name, e.values[0]);
    AppendRest(m, Entry(e.name, [e.values[0]]), e.values[1..]);
    assert [e.values[0]] + e.values[1..] == e.values;
  }

  lemma {:induction false} AppendAllConcat(m: Entries, a: seq<Field>, b: seq<Field>)
    ensures AppendAll(m, a + b) == AppendAll(AppendAll(m, a), b)
    decreases |a|
  {
    if a == [] {
      assert a + b == b;
    } else {
      assert (a + b)[1..] == a[1..] + b;
      AppendAllConcat(Append(m, a[0].name, a[0].value), a[1..], b);
    }
  }

  // ----- Filtering by name -----

  lemma {:induction false} KeepFieldsConcat(a: seq<Field>, b: seq<Field>, keep: string -> bool)
    ensures KeepFields(a + b, keep) == KeepFields(a, keep) + KeepFields(b, keep)
  {
    if a == [] {
      assert a + b == b;
    } else {
      assert (a + b)[1..] == a[1..] + b;
      KeepFieldsConcat(a[1..], b, keep);
    }
  }

  lemma {:induction false} KeepEntryFields(name: string, values: seq<Value>, keep: string -> bool)
    ensures KeepFields(EntryFields(name, values), keep) == if keep(name) then EntryFields(name, values) else []
  {
    if values != [] {
      assert EntryFields(name, values)[1..] == EntryFields(name, values[1..]);
      KeepEntryFields(name, values[1..], keep);
    }
  }

  /** Filtering entries filters exactly the fields: what is kept keeps its order and its multiplicity. */
  lemma {:induction false} KeepIsKeepFields(m: Entries, keep: string -> bool)
    ensures Fields(Keep(m, keep)) == KeepFields(Fields(m), keep)
  {
    if m != [] {
      KeepFieldsConcat(EntryFields(m[0].name, m[0].values), Fields(m[1..]), keep);
      KeepEntryFields(m[0].name, m[0].values, keep);
      KeepIsKeepFields(m[1..], keep);
      if keep(m[0].name) {
        assert ([m[0]] + Keep(m[1..], keep))[1..] == Keep(m[1..], keep);
      } else {
        assert [] + Keep(m[1..], keep) == Keep(m[1..], keep);
      }
    }
  }

  lemma {:induction false} KeepHas(m: Entries, keep: string -> bool, name: string)
    ensures Has(Keep(m, keep), name) <==> Has(m, name) && keep(name)
  {
    if m != [] {
      KeepHas(m[1..], keep, name);
      var rest := Keep(m[1..], keep);
      HasConcat(if keep(m[0].name) then [m[0]] else [], rest, name);
      HasConcat([m[0]], m[1..], name);
      assert [m[0]] + m[1..] == m;
      HasOne(m[0], name);
    }
  }

  lemma HasConcat(a: Entries, b: Entries, name: string)
    ensures Has(a + b, name) <==> Has(a, name) || Has(b, name)
  {
    var m := a + b;
    if i :| 0 <= i < |a| && a[i].name == name {
      assert m[i].name == name;
    }
    if i :| 0 <= i < |b| && b[i].name == name {
      assert m[|a| + i].name == name;
    }
  }

  lemma HasOne(e: Entry, name: string)
    ensures Has([e], name) <==> e.name == name
  {
    assert [e][0] == e;
  }

  lemma {:induction false} KeepValid(m: Entries, keep: string -> bool)
    requires Valid(m)
    ensures Valid(Keep(m, keep))
  {
    if m != [] {
      assert Valid(m[1..]);
      KeepValid(m[1..], keep);
      KeepHas(m[1..], keep, m[0].name);
      var rest := Keep(m[1..], keep);
      assert !Has(m[1..], m[0].name);
      assert forall i :: 0 <= i < |rest| ==> rest[i].name != m[0].name;
    }
  }

  lemma {:induction false} RebuildOnto(acc: Entries, m: Entries)
    requires Valid(m) && forall i :: 0 <= i < |m| ==> !Has(acc, m[i].name)
    ensures AppendAll(acc, Fields(m)) == acc + m
    decreases |m|
  {
    if m == [] {
      assert acc + m == acc;
    } else {
      AppendAllConcat(acc, EntryFields(m[0].name, m[0].values), Fields(m[1..]));
      AppendEntry(acc, m[0]);
      assert Valid(m[1..]);
      forall i | 0 <= i < |m[1..]| ensures !Has(acc + [m[0]], m[1..][i].name) {
        HasConcat(acc, [m[0]], m[1..][i].name);
        HasOne(m[0], m[1..][i].name);
        assert m[1..][i] == m[i + 1];
      }
      RebuildOnto(acc + [m[0]], m[1..]);
      assert acc + [m[0]] + m[1..] == acc + m;
    }
  }

  /** Appending the kept fields one by one into an empty map yields the kept entries. */
  lemma Rebuild(m: Entries, keep: string -> bool)
    requires Valid(m)
    ensures AppendAll([], KeepFields(Fields(m), keep)) == Keep(m, keep)
  {
    KeepIsKeepFields(m, keep);
    KeepValid(m, keep);
    RebuildOnto([], Keep(m, keep));
  }

  lemma {:induction false} KeepTwice(m: Entries, first: string -> bool, second: string -> bool, both: string -> bool)
    requires forall name :: both(name) <==> first(name) && second(name)
    ensures Keep(Keep(m, first), second) == Keep(m, both)
  {
    if m != [] {
      KeepTwice(m[1..], first, second, both);
      if first(m[0].name) {
        assert ([m[0]] + Keep(m[1..], first))[1..] == Keep(m[1..], first);
      } else {
        assert [] + Keep(m[1..], first) == Keep(m[1..], first);
      }
    }
  }

  lemma {:induction false} KeepConcat(a: Entries, b: Entries, keep: string -> bool)
    ensures Keep(a + b, keep) == Keep(a, keep) + Keep(b, keep)
  {
    if a == [] {
      assert a + b == b;
    } else {
      assert (a + b)[1..] == a[1..] + b;
      KeepConcat(a[1..], b, keep);
    }
  }

  lemma {:induction false} KeepAll(m: Entries, keep: string -> bool)
    requires forall i :: 0 <= i < |m| ==> keep(m[i].name)
    ensures Keep(m, keep) == m
  {
    if m != [] {
      assert forall i :: 0 <= i < |m[1..]| ==> m[1..][i] == m[i + 1];
      KeepAll(m[1..], keep);
    }
  }

  lemma {:induction false} KeepOnly(m: Entries, keep: string -> bool)
    ensures forall i :: 0 <= i < |Keep(m, keep)| ==> keep(Keep(m, keep)[i].name)
  {
    if m != [] {
      KeepOnly(m[1..], keep);
    }
  }

  lemma {:induction false} GetAllConcat(a: Entries, b: Entries, name: string)
    ensures GetAll(a + b, name) == if Has(a, name) then GetAll(a, name) else GetAll(b, name)
  {
    if a == [] {
      assert a + b == b;
    } else {
      assert (a + b)[1..] == a[1..] + b;
      GetAllConcat(a[1..], b, name);
      HasConcat([a[0]], a[1..], name);
      HasOne(a[0], name);
      assert [a[0]] + a[1..] == a;
    }
  }

  lemma {:induction false} GetAllAbsent(m: Entries, name: string)
    requires !Has(m, name)
    ensures GetAll(m, name) == []
  {
    if m != [] {
      assert m[0].name != name;
      assert forall i :: 0 <= i < |m[1..]| ==> m[1..][i] == m[i + 1];
      GetAllAbsent(m[1..], name);
    }
  }

  lemma {:induction false} FieldsConcat(a: Entries, b: Entries)
    ensures Fields(a + b) == Fields(a) + Fields(b)
  {
    if a == [] {
      assert a + b == b;
    } else {
      assert (a + b)[1..] == a[1..] + b;
      FieldsConcat(a[1..], b);
    }
  }

  // ----- The map a filter fills in place -----

  class Headers {
    var entries: Entries

    constructor ()
      ensures entries == []
    {
      entries := [];
    }

    method AppendField(name: string, v: Value)
      modifies this
      ensures entries == Append(old(entries), name, v)
    {
      entries := Append(entries, name, v);
    }

    method InsertField(name: string, v: Value)
      modifies this
      ensures entries == Insert(old(entries), name, v)
    {
      entries := Insert(entries, name, v);
    }

    /** Filter the fields of another map by name and append the rest, one by one. */
    method Fill(source: Headers, keep: string -> bool)
      requires source != this && entries == [] && Valid(source.entries)
      modifies this
      ensures entries == Keep(source.entries, keep) && Valid(entries)
    {
      var fields := Fields(source.entries);
      var i := 0;
      while i < |fields|
        invariant i <= |fields|
        invariant AppendAll(entries, KeepFields(fields[i..], keep)) == AppendAll([], KeepFields(fields, keep))
      {
        assert fields[i..][0] == fields[i] && fields[i..][1..] == fields[i + 1..];
        if keep(fields[i].name) {
          assert ([fields[i]] + KeepFields(fields[i + 1..], keep))[1..] == KeepFields(fields[i + 1..], keep);
          AppendField(fields[i].name, fields[i].value);
        } else {
          assert [] + KeepFields(fields[i + 1..], keep) == KeepFields(fields[i + 1..], keep);
        }
        i := i + 1;
      }
      Rebuild(source.entries, keep);
      KeepValid(source.entries, keep);
    }
  }
}
