// The configuration as a two-level multimap, filled value by value.

module ConfigData {

  datatype Attribute = Attribute(name: string, values: seq<string>)
  datatype Section = Section(name: string, attributes: seq<Attribute>)

  type Data = seq<Section>

  function FindSection(d: Data, name: string): (i: nat)
    ensures i <= |d|
    ensures i < |d| ==> d[i].name == name
    ensures forall k :: 0 <= k < i ==> d[k].name != name
  {
    if d == [] || d[0].name == name then 0 else 1 + FindSection(d[1..], name)
  }

  function FindAttribute(attrs: seq<Attribute>, name: string): (i: nat)
    ensures i <= |attrs|
    ensures i < |attrs| ==> attrs[i].name == name
    ensures forall k :: 0 <= k < i ==> attrs[k].name != name
  {
    if attrs == [] || attrs[0].name == name then 0 else 1 + FindAttribute(attrs[1..], name)
  }

  // AddSection and FindSection: the section of that name, made at the end when there is none.
  function WithSection(d: Data, name: string): Data {
    if FindSection(d, name) < |d| then d else d + [Section(name, [])]
  }

  function AddToAttribute(attrs: seq<Attribute>, key: string, value: string): seq<Attribute> {
    var i := FindAttribute(attrs, key);
    if i < |attrs| then attrs[i := Attribute(key, attrs[i].values + [value])] else attrs + [Attribute(key, [value])]
  }

  function WithValue(d: Data, section: string, key: string, value: string): Data {
    var e := WithSection(d, section);
    var i := FindSection(e, section);
    if i < |e| then e[i := Section(section, AddToAttribute(e[i].attributes, key, value))] else e
  }

  // The values under a section and key; none when either is missing.
  function AttributeValues(attrs: seq<Attribute>, key: string): seq<string> {
    var i := FindAttribute(attrs, key);
    if i < |attrs| then attrs[i].values else []
  }

  function Values(d: Data, section: string, key: string): seq<string> {
    var i := FindSection(d, section);
    if i < |d| then AttributeValues(d[i].attributes, key) else []
  }

  class Store {
    var sections: Data

    constructor ()
      ensures sections == []
    {
      sections := [];
    }

    method AddSection(name: string)
      modifies this
      ensures sections == WithSection(old(sections), name)
    {
      var i := Find(name);
      if i == |sections| {
        sections := sections + [Section(name, [])];
      }
    }

    method Find(name: string) returns (i: nat)
      ensures i == FindSection(sections, name)
    {
      i := 0;
      while i < |sections| && sections[i].name != name
        invariant i <= |sections|
        invariant forall k :: 0 <= k < i ==> sections[k].name != name
      {
        i := i + 1;
      }
    }

    // FindSection, GetAttribute and AddValue, one after the other.
    method AddValue(section: string, key: string, value: string)
      modifies this
      ensures sections == WithValue(old(sections), section, key, value)
    {
      hide FindAttribute;
      AddSection(section);
      var i := Find(section);
      if i < |sections| {
        var attributes := sections[i].attributes;
        var j := 0;
        while j < |attributes| && attributes[j].name != key
          invariant j <= |attributes|
          invariant forall k :: 0 <= k < j ==> attributes[k].name != key
        {
          j := j + 1;
        }
        attributes := if j < |attributes| then attributes[j := Attribute(key, attributes[j].values + [value])]
        else attributes + [Attribute(key, [value])];
        sections := sections[i := Section(section, attributes)];
      }
    }
  }

  // What a file says, line by line and value by value.
  datatype Fact = Mention(section: string) | Fact(section: string, key: string, value: string)

  function Record(d: Data, f: Fact): Data {
    match f
    case Mention(section) => WithSection(d, section)
    case Fact(section, key, value) => WithValue(d, section, key, value)
  }

  function RecordAll(d: Data, fs: seq<Fact>): Data
    decreases |fs|
  {
    if fs == [] then d else RecordAll(Record(d, fs[0]), fs[1..])
  }

  lemma {:induction false} RecordConcat(d: Data, a: seq<Fact>, b: seq<Fact>)
    ensures RecordAll(d, a + b) == RecordAll(RecordAll(d, a), b)
    decreases |a|
  {
    hide Record;
    if a == [] {
      assert a + b == b;
    } else {
      assert (a + b)[1..] == a[1..] + b;
      RecordConcat(Record(d, a[0]), a[1..], b);
    }
  }

  // The values a stream of facts gives for a section and key, in order.
  function ValuesIn(fs: seq<Fact>, section: string, key: string): seq<string> {
    if fs == [] then []
    else
      var rest := ValuesIn(fs[1..], section, key);
      if fs[0].Fact? && fs[0].section == section && fs[0].key == key then [fs[0].value] + rest else rest
  }

  ghost predicate DistinctAttributes(attrs: seq<Attribute>) {
    forall i, j :: 0 <= i < j < |attrs| ==> attrs[i].name != attrs[j].name
  }

  ghost predicate DistinctNames(d: Data) {
    && (forall i, j :: 0 <= i < j < |d| ==> d[i].name != d[j].name)
    && (forall i :: 0 <= i < |d| ==> DistinctAttributes(d[i].attributes))
  }

  // ---- One addition ----

  lemma {:induction false} FindAppended(d: Data, s: Section, name: string)
    ensures FindSection(d + [s], name) ==
      if FindSection(d, name) < |d| then FindSection(d, name) else if s.name == name then |d| else |d| + 1
  {
    if d != [] {
      assert (d + [s])[1..] == d[1..] + [s];
      FindAppended(d[1..], s, name);
    } else {
      assert d + [s] == [s];
      assert [s][1..] == [];
    }
  }

  lemma {:induction false} FindUpdated(d: Data, i: nat, s: Section, name: string)
    requires i < |d| && s.name == d[i].name
    ensures FindSection(d[i := s], name) == FindSection(d, name)
  {
    if d[0].name != name {
      if i > 0 {
        assert d[i := s][1..] == d[1..][i - 1 := s];
        FindUpdated(d[1..], i - 1, s, name);
      } else {
        assert d[i := s][1..] == d[1..];
      }
    }
  }

  lemma {:induction false} FindAttributeAppended(attrs: seq<Attribute>, a: Attribute, name: string)
    ensures FindAttribute(attrs + [a], name) ==
      if FindAttribute(attrs, name) < |attrs| then FindAttribute(attrs, name)
      else if a.name == name then |attrs| else |attrs| + 1
  {
    if attrs != [] {
      assert (attrs + [a])[1..] == attrs[1..] + [a];
      FindAttributeAppended(attrs[1..], a, name);
    } else {
      assert attrs + [a] == [a];
      assert [a][1..] == [];
    }
  }

  lemma {:induction false} FindAttributeUpdated(attrs: seq<Attribute>, i: nat, a: Attribute, name: string)
    requires i < |attrs| && a.name == attrs[i].name
    ensures FindAttribute(attrs[i := a], name) == FindAttribute(attrs, name)
  {
    if attrs[0].name != name {
      if i > 0 {
        assert attrs[i := a][1..] == attrs[1..][i - 1 := a];
        FindAttributeUpdated(attrs[1..], i - 1, a, name);
      } else {
        assert attrs[i := a][1..] == attrs[1..];
      }
    }
  }

  lemma AttributeAdded(attrs: seq<Attribute>, key: string, value: string, k: string)
    ensures AttributeValues(AddToAttribute(attrs, key, value), k)
         == AttributeValues(attrs, k) + if k == key then [value] else []
  {
    hide FindAttribute;
    var i := FindAttribute(attrs, key);
    if i < |attrs| {
      FindAttributeUpdated(attrs, i, Attribute(key, attrs[i].values + [value]), k);
    } else {
      FindAttributeAppended(attrs, Attribute(key, [value]), k);
    }
  }

  lemma AttributeKeepsDistinct(attrs: seq<Attribute>, key: string, value: string)
    requires DistinctAttributes(attrs)
    ensures DistinctAttributes(AddToAttribute(attrs, key, value))
  {
    hide FindAttribute;
  }

  lemma SectionAdded(d: Data, name: string, section: string, key: string)
    ensures FindSection(WithSection(d, name), name) < |WithSection(d, name)|
    ensures Values(WithSection(d, name), section, key) == Values(d, section, key)
    ensures DistinctNames(d) ==> DistinctNames(WithSection(d, name))
  {
    FindAppended(d, Section(name, []), name);
    FindAppended(d, Section(name, []), section);
  }

  lemma ValueAdded(d: Data, f: Fact, section: string, key: string)
    requires f.Fact?
    ensures Values(Record(d, f), section, key) ==
      Values(d, section, key) + if f.section == section && f.key == key then [f.value] else []
    ensures DistinctNames(d) ==> DistinctNames(Record(d, f))
  {
    hide WithSection, AttributeValues, AddToAttribute, DistinctAttributes, FindSection;
    var e := WithSection(d, f.section);
    SectionAdded(d, f.section, section, key);
    var i := FindSection(e, f.section);
    AttributeAdded(e[i].attributes, f.key, f.value, key);
    if DistinctNames(e) {
      AttributeKeepsDistinct(e[i].attributes, f.key, f.value);
    }
    FindUpdated(e, i, Section(f.section, AddToAttribute(e[i].attributes, f.key, f.value)), section);
  }

  // Section names and keys stay distinct, and under each section and key stand exactly the values the
  // stream gave for them, in order, however often sections and keys were repeated.
  lemma {:induction false} RecordedExactly(d: Data, fs: seq<Fact>, section: string, key: string)
    ensures Values(RecordAll(d, fs), section, key) == Values(d, section, key) + ValuesIn(fs, section, key)
    ensures DistinctNames(d) ==> DistinctNames(RecordAll(d, fs))
    decreases |fs|
  {
    hide Record, Values, DistinctNames;
    if fs != [] {
      if fs[0].Fact? {
        ValueAdded(d, fs[0], section, key);
      } else {
        MentionAdded(d, fs[0], section, key);
      }
      RecordedExactly(Record(d, fs[0]), fs[1..], section, key);
    }
  }

  lemma MentionAdded(d: Data, f: Fact, section: string, key: string)
    requires f.Mention?
    ensures Values(Record(d, f), section, key) == Values(d, section, key)
    ensures DistinctNames(d) ==> DistinctNames(Record(d, f))
  {
    SectionAdded(d, f.section, section, key);
    hide WithSection, Values, DistinctNames;
  }

  // ---- Listing a configuration and recording it again ----

  function ValueFacts(section: string, key: string, values: seq<string>): seq<Fact> {
    seq(|values|, i requires 0 <= i < |values| => Fact(section, key, values[i]))
  }

  function AttributeFacts(section: string, attrs: seq<Attribute>): seq<Fact> {
    if attrs == [] then []
    else ValueFacts(section, attrs[0].name, attrs[0].values) + AttributeFacts(section, attrs[1..])
  }

  function SectionFacts(s: Section): seq<Fact> {
    [Mention(s.name)] + AttributeFacts(s.name, s.attributes)
  }

  function AllFacts(d: Data): seq<Fact> {
    if d == [] then [] else SectionFacts(d[0]) + AllFacts(d[1..])
  }

  ghost predicate NoEmptyAttribute(d: Data) {
    forall i, j :: 0 <= i < |d| && 0 <= j < |d[i].attributes| ==> d[i].attributes[j].values != []
  }

  lemma RecordFull(d: Data, f: Fact)
    requires NoEmptyAttribute(d)
    ensures NoEmptyAttribute(Record(d, f))
  {
    hide FindSection, FindAttribute;
  }

  lemma {:induction false} RecordAllFull(d: Data, fs: seq<Fact>)
    requires NoEmptyAttribute(d)
    ensures NoEmptyAttribute(RecordAll(d, fs))
    decreases |fs|
  {
    hide Record, NoEmptyAttribute;
    if fs != [] {
      RecordFull(d, fs[0]);
      RecordAllFull(Record(d, fs[0]), fs[1..]);
    }
  }

  lemma RecordNone(d: Data)
    ensures RecordAll(d, []) == d
  {}

  lemma RecordOne(d: Data, f: Fact)
    ensures RecordAll(d, [f]) == Record(d, f)
  {
    assert [f][1..] == [];
  }

  lemma NoValues(d: Data, section: string, key: string)
    ensures RecordAll(d, ValueFacts(section, key, [])) == d
  {
    assert ValueFacts(section, key, []) == [];
  }

  lemma OneMoreValue(d: Data, section: string, key: string, values: seq<string>, v: string)
    ensures RecordAll(d, ValueFacts(section, key, values + [v]))
         == WithValue(RecordAll(d, ValueFacts(section, key, values)), section, key, v)
  {
    hide RecordAll, WithValue;
    var fs := ValueFacts(section, key, values);
    assert ValueFacts(section, key, values + [v]) == fs + [Fact(section, key, v)];
    RecordConcat(d, fs, [Fact(section, key, v)]);
    RecordOne(RecordAll(d, fs), Fact(section, key, v));
  }

  // Recording facts of the last section only touches that section.
  lemma LastSectionValue(d: Data, s: Section, key: string, value: string)
    requires FindSection(d, s.name) == |d|
    ensures WithValue(d + [s], s.name, key, value) == d + [Section(s.name, AddToAttribute(s.attributes, key, value))]
  {
    FindAppended(d, s, s.name);
  }

  lemma AttributeExtended(attrs: seq<Attribute>, key: string, values: seq<string>, value: string)
    requires FindAttribute(attrs, key) == |attrs|
    ensures AddToAttribute(attrs + [Attribute(key, values)], key, value) == attrs + [Attribute(key, values + [value])]
    ensures AddToAttribute(attrs, key, value) == attrs + [Attribute(key, [value])]
  {
    FindAttributeAppended(attrs, Attribute(key, values), key);
  }

  lemma {:induction false} RecordValues(d: Data, s: Section, key: string, values: seq<string>)
    requires FindSection(d, s.name) == |d|
    requires FindAttribute(s.attributes, key) == |s.attributes| && values != []
    ensures RecordAll(d + [s], ValueFacts(s.name, key, values))
         == d + [Section(s.name, s.attributes + [Attribute(key, values)])]
    decreases |values|
  {
    hide RecordAll, ValueFacts, WithValue, AddToAttribute, FindSection, FindAttribute;
    var front, last := values[..|values| - 1], values[|values| - 1];
    assert values == front + [last];
    OneMoreValue(d + [s], s.name, key, front, last);
    AttributeExtended(s.attributes, key, front, last);
    if front == [] {
      NoValues(d + [s], s.name, key);
      LastSectionValue(d, s, key, last);
      assert values == [last];
    } else {
      RecordValues(d, s, key, front);
      LastSectionValue(d, Section(s.name, s.attributes + [Attribute(key, front)]), key, last);
    }
  }

  lemma {:induction false} RecordAttributes(d: Data, name: string, done: seq<Attribute>, rest: seq<Attribute>)
    requires FindSection(d, name) == |d| && DistinctAttributes(done + rest)
    requires forall j :: 0 <= j < |rest| ==> rest[j].values != []
    ensures RecordAll(d + [Section(name, done)], AttributeFacts(name, rest)) == d + [Section(name, done + rest)]
    decreases |rest|
  {
    hide Record;
    if rest == [] {
      assert done + rest == done;
    } else {
      var a := rest[0];
      assert FindAttribute(done, a.name) == |done| by {
        assert (done + rest)[|done|] == a;
        assert forall k :: 0 <= k < |done| ==> (done + rest)[k] == done[k];
      }
      RecordConcat(d + [Section(name, done)], ValueFacts(name, a.name, a.values), AttributeFacts(name, rest[1..]));
      RecordValues(d, Section(name, done), a.name, a.values);
      assert a == Attribute(a.name, a.values);
      assert done + [a] + rest[1..] == done + rest;
      RecordAttributes(d, name, done + [a], rest[1..]);
    }
  }

  lemma {:induction false} RecordSections(done: Data, rest: Data)
    requires DistinctNames(done + rest) && NoEmptyAttribute(rest)
    ensures RecordAll(done, AllFacts(rest)) == done + rest
    decreases |rest|
  {
    hide Record;
    if rest == [] {
      assert done + rest == done;
    } else {
      var s := rest[0];
      assert (done + rest)[|done|] == s;
      assert FindSection(done, s.name) == |done| by {
        assert forall k :: 0 <= k < |done| ==> (done + rest)[k] == done[k];
      }
      MentionNew(done, s.name);
      var facts := AttributeFacts(s.name, s.attributes);
      assert SectionFacts(s) == [Mention(s.name)] + facts;
      RecordConcat(done, SectionFacts(s), AllFacts(rest[1..]));
      RecordConcat(done, [Mention(s.name)], facts);
      assert [] + s.attributes == s.attributes;
      RecordAttributes(done, s.name, [], s.attributes);
      assert done + [s] + rest[1..] == done + rest;
      RecordSections(done + [s], rest[1..]);
    }
  }

  lemma MentionNew(d: Data, name: string)
    requires FindSection(d, name) == |d|
    ensures RecordAll(d, [Mention(name)]) == d + [Section(name, [])]
  {
    assert [Mention(name)][1..] == [];
  }
}
