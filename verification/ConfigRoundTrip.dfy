// Printing a configuration as `[section]` and `key:v1,v2` lines and loading the text gives the same
// configuration back.

module ConfigRoundTrip {
  import opened CStrings
  import opened ConfigData
  import opened ConfigFile

  // A name or value that survives printing.
  ghost predicate IsPlain(w: string) {
    && IsWord(w)
    && |w| < BUFFER
    && '#' !in w && '[' !in w && ']' !in w && ':' !in w && ',' !in w
  }

  ghost predicate PlainAttribute(a: Attribute) {
    IsPlain(a.name) && a.values != [] && forall i :: 0 <= i < |a.values| ==> IsPlain(a.values[i])
  }

  ghost predicate PlainSection(s: Section) {
    IsPlain(s.name) && forall i :: 0 <= i < |s.attributes| ==> PlainAttribute(s.attributes[i])
  }

  ghost predicate Printable(d: Data) {
    DistinctNames(d) && forall i :: 0 <= i < |d| ==> PlainSection(d[i])
  }

  function Joined(values: seq<string>): string
    requires values != []
  {
    if |values| == 1 then values[0] else values[0] + "," + Joined(values[1..])
  }

  function HeaderLine(name: string): string {
    "[" + name + "]\n"
  }

  function EntryLine(a: Attribute): string
    requires a.values != []
  {
    a.name + ":" + (Joined(a.values) + "\n")
  }

  ghost function EntryLines(attrs: seq<Attribute>): seq<string>
    requires forall i :: 0 <= i < |attrs| ==> PlainAttribute(attrs[i])
  {
    if attrs == [] then [] else assert PlainAttribute(attrs[0]); [EntryLine(attrs[0])] + EntryLines(attrs[1..])
  }

  ghost function PrintedLines(d: Data): seq<string>
    requires forall i :: 0 <= i < |d| ==> PlainSection(d[i])
  {
    if d == [] then []
    else
      assert PlainSection(d[0]);
      [HeaderLine(d[0].name)] + EntryLines(d[0].attributes) + PrintedLines(d[1..])
  }

  function Concatenated(lines: seq<string>): string {
    if lines == [] then "" else lines[0] + Concatenated(lines[1..])
  }

  ghost function Print(d: Data): string
    requires Printable(d)
  {
    Concatenated(PrintedLines(d))
  }

  ghost predicate IsLine(l: string) {
    |l| > 0 && l[|l| - 1] == '\n' && '\n' !in l[..|l| - 1]
  }

  ghost predicate AllLines(lines: seq<string>) {
    forall i :: 0 <= i < |lines| ==> IsLine(lines[i])
  }

  // ---- Words ----

  lemma WordAlone(w: string)
    requires IsWord(w)
    ensures FirstWord(w) == w && FirstWord(w + "\n") == w
  {
    assert w == "" + w + "";
    WordBetween("", w, "");
    assert w + "\n" == "" + w + "\n";
    WordBetween("", w, "\n");
  }

  lemma NoNewline(w: string)
    requires IsWord(w)
    ensures '\n' !in w
  {}

  // ---- Each printed line reads as what it printed ----

  lemma NoSeparator(s: string, c: char)
    requires c !in s
    ensures IndexOf(s, c) == |s| && LastIndexOf(s, c) == |s|
  {}

  lemma HeaderReads(name: string)
    requires IsPlain(name)
    ensures ReadLine(HeaderLine(name)) == Header(name) && IsLine(HeaderLine(name))
  {
    hide IndexOf, LastIndexOf, FirstWord;
    var t := HeaderLine(name);
    NoNewline(name);
    NoSeparator(t, NUL);
    NoSeparator(t, '#');
    assert t[..|t|] == t;
    FirstIs(t, '[', 0);
    var close := |name| + 1;
    assert t[close] == ']' && t[close + 1..] == "\n";
    LastIs(t, ']', close);
    assert t[1..close] == name;
    assert t[..|t| - 1] == "[" + name + "]";
    WordAlone(name);
  }

  lemma {:induction false} JoinedLacks(values: seq<string>, c: char)
    requires values != [] && c != ',' && forall i :: 0 <= i < |values| ==> c !in values[i]
    ensures c !in Joined(values)
  {
    if |values| > 1 {
      JoinedLacks(values[1..], c);
    }
  }

  lemma JoinedSplits(values: seq<string>)
    requires values != [] && IsPlain(values[0])
    ensures var text := Joined(values) + "\n"; var v := values[0]; var i := IndexOf(text, ',');
      && FirstWord(text[..i]) == v
      && (i == |text| <==> |values| == 1)
      && (|values| > 1 ==> text[i + 1..] == Joined(values[1..]) + "\n")
  {
    hide IndexOf, FirstWord;
    var v := values[0];
    var text := Joined(values) + "\n";
    WordAlone(v);
    if |values| == 1 {
      NoSeparator(text, ',');
      assert text[..|text|] == text;
    } else {
      var rest := Joined(values[1..]) + "\n";
      assert text == v + [','] + rest;
      IndexOfSplit(v, ',', rest);
      assert text[..|v|] == v && text[|v| + 1..] == rest;
    }
  }

  lemma {:induction false} JoinedReads(values: seq<string>, last: string)
    requires values != [] && forall i :: 0 <= i < |values| ==> IsPlain(values[i])
    ensures ReadValues(Pieces(Joined(values) + "\n"), last) == values
    decreases |values|
  {
    hide IndexOf, FirstWord, Pieces, ReadValues, Joined, IsPlain;
    var v := values[0];
    assert IsPlain(v);
    assert v != "" by { PlainNotEmpty(v); }
    NextPiece(Joined(values) + "\n", last);
    JoinedSplits(values);
    if |values| > 1 {
      JoinedReads(values[1..], v);
    }
    assert values == [v] + values[1..];
  }

  lemma PlainNotEmpty(w: string)
    requires IsPlain(w)
    ensures w != ""
  {}

  lemma EntryLacks(a: Attribute, c: char)
    requires PlainAttribute(a) && c !in ":,\n" && c !in a.name && forall i :: 0 <= i < |a.values| ==> c !in a.values[i]
    ensures c !in EntryLine(a)
  {
    hide Joined;
    JoinedLacks(a.values, c);
  }

  lemma EntryReads(a: Attribute)
    requires PlainAttribute(a)
    ensures ReadLine(EntryLine(a)) == Entry(a.name, a.values) && IsLine(EntryLine(a))
  {
    hide IndexOf, LastIndexOf, FirstWord, Pieces, ReadValues, Joined, EntryLine;
    var t := EntryLine(a);
    EntryLacks(a, NUL);
    EntryLacks(a, '#');
    EntryLacks(a, '[');
    NoSeparator(t, NUL);
    NoSeparator(t, '#');
    NoSeparator(t, '[');
    assert t[..|t|] == t;
    EntrySplits(a);
    WordAlone(a.name);
    JoinedReads(a.values, "");
  }

  lemma EntrySplits(a: Attribute)
    requires PlainAttribute(a)
    ensures var t := EntryLine(a);
      && IsLine(t)
      && IndexOf(t, ':') == |a.name| < |t|
      && t[..|a.name|] == a.name
      && t[|a.name| + 1..] == Joined(a.values) + "\n"
  {
    hide IndexOf, Joined;
    var t := EntryLine(a);
    var rest := Joined(a.values) + "\n";
    assert t == a.name + [':'] + rest;
    IndexOfSplit(a.name, ':', rest);
    NoNewline(a.name);
    forall i | 0 <= i < |a.values| ensures '\n' !in a.values[i] {
      NoNewline(a.values[i]);
    }
    JoinedLacks(a.values, '\n');
    assert t[..|t| - 1] == a.name + [':'] + Joined(a.values);
  }

  // ---- Lines, facts, data ----

  lemma {:induction false} LinesOf(lines: seq<string>)
    requires AllLines(lines)
    ensures Lines(Concatenated(lines)) == lines
    decreases |lines|
  {
    if lines != [] {
      var l, rest := lines[0], Concatenated(lines[1..]);
      var text := l + rest;
      var n := |l| - 1;
      assert IsLine(l);
      assert text == l[..n] + ['\n'] + rest;
      IndexOfSplit(l[..n], '\n', rest);
      assert text[..n + 1] == l && text[n + 1..] == rest;
      LinesOf(lines[1..]);
    }
  }

  lemma EntryFirst(a: Attribute, more: seq<string>, name: string)
    requires PlainAttribute(a)
    ensures FactsOf([EntryLine(a)] + more, name) == ValueFacts(name, a.name, a.values) + FactsOf(more, name)
    ensures Readable(more) ==> Readable([EntryLine(a)] + more)
    ensures IsLine(EntryLine(a))
  {
    hide ReadLine, IsLine, EntryLine;
    EntryReads(a);
    assert ([EntryLine(a)] + more)[1..] == more;
  }

  lemma {:induction false} EntriesRead(attrs: seq<Attribute>, more: seq<string>, name: string)
    requires forall i :: 0 <= i < |attrs| ==> PlainAttribute(attrs[i])
    ensures FactsOf(EntryLines(attrs) + more, name) == AttributeFacts(name, attrs) + FactsOf(more, name)
    ensures Readable(more) ==> Readable(EntryLines(attrs) + more)
    ensures AllLines(EntryLines(attrs))
    decreases |attrs|
  {
    hide IsLine, EntryLine, FactsOf, Readable, IsPlain, ValueFacts;
    if attrs == [] {
      assert EntryLines(attrs) + more == more;
    } else {
      assert PlainAttribute(attrs[0]);
      EntriesRead(attrs[1..], more, name);
      EntryFirst(attrs[0], EntryLines(attrs[1..]) + more, name);
      assert EntryLines(attrs) + more == [EntryLine(attrs[0])] + (EntryLines(attrs[1..]) + more);
    }
  }

  lemma NoLines(section: string)
    ensures FactsOf([], section) == [] && Readable([])
  {}

  lemma HeaderFirst(name: string, more: seq<string>, section: string)
    requires IsPlain(name)
    ensures FactsOf([HeaderLine(name)] + more, section) == [Mention(name)] + FactsOf(more, name)
    ensures Readable(more) ==> Readable([HeaderLine(name)] + more)
    ensures IsLine(HeaderLine(name))
  {
    hide ReadLine, IsLine, HeaderLine;
    HeaderReads(name);
    assert ([HeaderLine(name)] + more)[1..] == more;
  }

  lemma {:induction false} PrintedRead(d: Data, section: string)
    requires forall i :: 0 <= i < |d| ==> PlainSection(d[i])
    ensures FactsOf(PrintedLines(d), section) == AllFacts(d) && Readable(PrintedLines(d))
    ensures AllLines(PrintedLines(d))
    decreases |d|
  {
    hide ReadLine, IsLine, HeaderLine;
    hide FactsOf, Readable, EntryLines, AttributeFacts;
    if d == [] {
      NoLines(section);
    } else {
      var s := d[0];
      assert PlainSection(s);
      var more := PrintedLines(d[1..]);
      PrintedRead(d[1..], s.name);
      EntriesRead(s.attributes, more, s.name);
      HeaderFirst(s.name, EntryLines(s.attributes) + more, section);
      assert PrintedLines(d) == [HeaderLine(s.name)] + (EntryLines(s.attributes) + more);
      assert AllFacts(d) == [Mention(s.name)] + (AttributeFacts(s.name, s.attributes) + AllFacts(d[1..]));
    }
  }

  // The round trip, for every configuration of plain words.
  lemma PrintLoad(d: Data)
    requires Printable(d)
    ensures Readable(Lines(Print(d))) && Load(Print(d)) == d
  {
    hide FactsOf, Lines, PrintedLines, Readable;
    PrintedRead(d, "");
    LinesOf(PrintedLines(d));
    assert NoEmptyAttribute(d) by {
      forall i, j | 0 <= i < |d| && 0 <= j < |d[i].attributes| ensures d[i].attributes[j].values != [] {
        assert PlainSection(d[i]);
        assert PlainAttribute(d[i].attributes[j]);
      }
    }
    assert [] + d == d;
    RecordSections([], d);
  }
}
