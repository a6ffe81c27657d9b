// What the loader makes of missing words: a value missing between commas repeats the one before it,
// and a header without a name repeats the section it stands in. Each is stated exactly.

module ConfigGaps {
  import opened CStrings
  import opened ConfigData
  import opened ConfigFile
  import opened ConfigRoundTrip

  // ---- Missing values ----

  // The words that the pieces give.
  function Words(ps: seq<string>): seq<string> {
    if ps == [] then []
    else
      var w := FirstWord(ps[0]);
      (if w == "" then [] else [w]) + Words(ps[1..])
  }

  ghost predicate NoBlank(ps: seq<string>) {
    forall k :: 0 <= k < |ps| ==> !AllSpace(ps[k])
  }

  lemma {:induction false} WordThere(s: string)
    ensures FirstWord(s) == "" <==> AllSpace(s)
  {
    if AllSpace(s) {
      ScanBlank(s);
    } else {
      WordFound(s);
    }
  }

  lemma {:induction false} WordFound(s: string)
    requires !AllSpace(s)
    ensures SkipSpace(s) != ""
  {
    if IsSpace(s[0]) {
      assert !AllSpace(s[1..]) by {
        assert s == [s[0]] + s[1..];
      }
      WordFound(s[1..]);
    }
  }

  lemma {:induction false} WordsBound(ps: seq<string>)
    ensures |Words(ps)| <= |ps|
    ensures |Words(ps)| == |ps| <==> NoBlank(ps)
  {
    hide FirstWord, AllSpace;
    if ps != [] {
      WordThere(ps[0]);
      WordsBound(ps[1..]);
      assert ps == [ps[0]] + ps[1..];
    }
  }

  // The values read are the words given exactly when no piece is blank.
  lemma {:induction false} ValuesExactly(ps: seq<string>, last: string)
    ensures ReadValues(ps, last) == Words(ps) <==> NoBlank(ps)
  {
    WordsBound(ps);
    if NoBlank(ps) {
      AllWords(ps, last);
    }
  }

  lemma {:induction false} AllWords(ps: seq<string>, last: string)
    requires NoBlank(ps)
    ensures ReadValues(ps, last) == Words(ps)
  {
    hide FirstWord, AllSpace;
    if ps != [] {
      WordThere(ps[0]);
      AllWords(ps[1..], FirstWord(ps[0]));
    }
  }

  // ---- Lines ----

  function Text(line: string): string {
    Before(CStr(line), '#')
  }

  // What stands between the commas of an entry.
  function ValuePieces(line: string): seq<string> {
    var t := Text(line);
    var colon := IndexOf(t, ':');
    if colon < |t| then Pieces(t[colon + 1..]) else []
  }

  // The line with the values it gives.
  function GivenLine(line: string): Line {
    match ReadLine(line)
    case Entry(key, _) => Entry(key, Words(ValuePieces(line)))
    case l => l
  }

  ghost predicate Gapped(line: string) {
    ReadLine(line).Entry? && !NoBlank(ValuePieces(line))
  }

  lemma EntryValues(line: string)
    requires ReadLine(line).Entry?
    ensures ReadLine(line).values == ReadValues(ValuePieces(line), "")
  {
    hide ReadValues, Pieces, FirstWord, IndexOf, LastIndexOf, CStr, Before;
  }

  // A line reads as it is given exactly when it is not an entry with a blank piece.
  lemma LineExactly(line: string)
    ensures ReadLine(line) == GivenLine(line) <==> !Gapped(line)
  {
    hide ReadLine, ReadValues, Words, ValuePieces, NoBlank;
    if ReadLine(line).Entry? {
      EntryValues(line);
      ValuesExactly(ValuePieces(line), "");
    }
  }

  // ---- Whole files ----

  function GivenFacts(lines: seq<string>, section: string): seq<Fact>
    decreases |lines|
  {
    if lines == [] || ReadLine(lines[0]).Stop? then []
    else
      LineFacts(GivenLine(lines[0]), section) + GivenFacts(lines[1..], NextSection(ReadLine(lines[0]), section))
  }

  // The line gives values for the section and key.
  predicate Gives(line: string, current: string, section: string, key: string) {
    var l := ReadLine(line);
    l.Entry? && current == section && l.key == key
  }

  // No line that is read and gives values for the section and key has a blank piece.
  ghost predicate Filled(lines: seq<string>, current: string, section: string, key: string)
    decreases |lines|
  {
    lines == [] || ReadLine(lines[0]).Stop? ||
    ((Gives(lines[0], current, section, key) ==> !Gapped(lines[0]))
      && Filled(lines[1..], NextSection(ReadLine(lines[0]), current), section, key))
  }

  lemma {:induction false} ValuesInConcat(a: seq<Fact>, b: seq<Fact>, section: string, key: string)
    ensures ValuesIn(a + b, section, key) == ValuesIn(a, section, key) + ValuesIn(b, section, key)
  {
    if a == [] {
      assert a + b == b;
    } else {
      assert (a + b)[1..] == a[1..] + b;
      ValuesInConcat(a[1..], b, section, key);
    }
  }

  lemma {:induction false} ValuesInValues(name: string, k: string, values: seq<string>, section: string, key: string)
    ensures ValuesIn(ValueFacts(name, k, values), section, key) == if name == section && k == key then values else []
  {
    if values != [] {
      assert ValueFacts(name, k, values)[1..] == ValueFacts(name, k, values[1..]);
      ValuesInValues(name, k, values[1..], section, key);
    }
  }

  lemma ValuesInLine(l: Line, current: string, section: string, key: string)
    ensures ValuesIn(LineFacts(l, current), section, key) ==
      if l.Entry? && current == section && l.key == key then l.values else []
  {
    match l
    case Header(_) => assert LineFacts(l, current)[1..] == [];
    case Entry(k, values) => ValuesInValues(current, k, values, section, key);
    case _ =>
  }

  lemma SplitEqual<T>(a: seq<T>, x: seq<T>, b: seq<T>, y: seq<T>)
    requires |a| <= |b| && |x| <= |y|
    ensures a + x == b + y <==> a == b && x == y
  {
    if a + x == b + y {
      assert |a| == |b| && |x| == |y|;
      assert (a + x)[..|a|] == a && (b + y)[..|b|] == b;
      assert (a + x)[|a|..] == x && (b + y)[|b|..] == y;
    }
  }

  lemma LineGives(line: string, current: string, section: string, key: string)
    ensures var given := ValuesIn(LineFacts(GivenLine(line), current), section, key);
      var read := ValuesIn(LineFacts(ReadLine(line), current), section, key);
      && |given| <= |read|
      && (given == read <==> (Gives(line, current, section, key) ==> !Gapped(line)))
  {
    hide ReadLine, LineFacts, ValuesIn, ValuePieces, Words, ReadValues, NoBlank;
    ValuesInLine(ReadLine(line), current, section, key);
    ValuesInLine(GivenLine(line), current, section, key);
    LineExactly(line);
    if ReadLine(line).Entry? {
      EntryValues(line);
      WordsBound(ValuePieces(line));
    }
  }

  lemma FactsUnfold(lines: seq<string>, current: string)
    requires lines != [] && !ReadLine(lines[0]).Stop?
    ensures var next := NextSection(ReadLine(lines[0]), current);
      && FactsOf(lines, current) == LineFacts(ReadLine(lines[0]), current) + FactsOf(lines[1..], next)
      && GivenFacts(lines, current) == LineFacts(GivenLine(lines[0]), current) + GivenFacts(lines[1..], next)
  {
    hide ReadLine, LineFacts, GivenLine;
  }

  // For every text, section and key: the stream holds just the values given exactly when no line
  // that gives values for them has a blank piece.
  lemma {:induction false} StreamExactly(lines: seq<string>, current: string, section: string, key: string)
    ensures var given := ValuesIn(GivenFacts(lines, current), section, key);
      var read := ValuesIn(FactsOf(lines, current), section, key);
      |given| <= |read| && (given == read <==> Filled(lines, current, section, key))
    decreases |lines|
  {
    hide ReadLine, LineFacts, GivenLine, Gapped, Gives, NextSection, FactsOf, GivenFacts, ValuesIn;
    if lines == [] || ReadLine(lines[0]).Stop? {
      NothingRead(lines, current);
    } else {
      var next := NextSection(ReadLine(lines[0]), current);
      var given, read := LineFacts(GivenLine(lines[0]), current), LineFacts(ReadLine(lines[0]), current);
      var moreGiven, moreRead := GivenFacts(lines[1..], next), FactsOf(lines[1..], next);
      StreamExactly(lines[1..], next, section, key);
      FactsUnfold(lines, current);
      LineGives(lines[0], current, section, key);
      ValuesInConcat(given, moreGiven, section, key);
      ValuesInConcat(read, moreRead, section, key);
      SplitEqual(ValuesIn(given, section, key), ValuesIn(moreGiven, section, key),
                 ValuesIn(read, section, key), ValuesIn(moreRead, section, key));
    }
  }

  lemma NothingRead(lines: seq<string>, current: string)
    requires lines == [] || ReadLine(lines[0]).Stop?
    ensures FactsOf(lines, current) == [] && GivenFacts(lines, current) == []
  {
    hide ReadLine;
  }

  // What loading keeps under a section and key is what the file gives there, under the same
  // condition.
  lemma LoadedAsGiven(text: string, section: string, key: string)
    ensures Values(Load(text), section, key) == ValuesIn(GivenFacts(Lines(text), ""), section, key)
      <==> Filled(Lines(text), "", section, key)
  {
    hide RecordAll, FactsOf, GivenFacts, Lines, Filled, Values, ValuesIn;
    RecordedExactly([], FactsOf(Lines(text), ""), section, key);
    StreamExactly(Lines(text), "", section, key);
    NoValuesYet(section, key);
  }

  lemma NoValuesYet(section: string, key: string)
    ensures Values([], section, key) == []
  {}

  // ---- Headers without a name ----

  // The line has both brackets, and this between them.
  ghost predicate InBrackets(line: string, name: string) {
    var t := Text(line);
    var open, close := IndexOf(t, '['), LastIndexOf(t, ']');
    open < |t| && close < |t| && name == if open < close then t[open + 1..close] else t[open + 1..]
  }

  // The section becomes the first word between the brackets exactly when there is one. The branch
  // that stops at a header without a name is never taken: the section goes on, mentioned again.
  lemma HeaderExactly(line: string, name: string, section: string, more: seq<string>)
    requires InBrackets(line, name)
    ensures var next := NextSection(ReadLine(line), section);
      && next == (if AllSpace(name) then section else FirstWord(name))
      && (next == FirstWord(name) <==> !AllSpace(name) || section == "")
      && FactsOf([line] + more, section) == [Mention(next)] + FactsOf(more, next)
  {
    HeaderRead(line, name);
    WordThere(name);
    hide ReadLine, FirstWord, AllSpace, InBrackets;
    assert ([line] + more)[1..] == more;
  }

  lemma HeaderRead(line: string, name: string)
    requires InBrackets(line, name)
    ensures ReadLine(line) == Header(FirstWord(name))
  {
    hide FirstWord, IndexOf, LastIndexOf, CStr, Before;
  }

  // ---- Lines that show both ----

  lemma PlainText(line: string)
    requires NUL !in line && '#' !in line
    ensures Text(line) == line
  {
    NoSeparator(line, NUL);
    NoSeparator(line, '#');
    assert line[..|line|] == line;
  }

  lemma PieceFirst(a: string, rest: string)
    requires ',' !in a
    ensures Pieces(a + [','] + rest) == [a] + Pieces(rest)
  {
    var text := a + [','] + rest;
    IndexOfSplit(a, ',', rest);
    hide IndexOf;
    assert text[..|a|] == a && text[|a| + 1..] == rest;
  }

  lemma PieceLast(b: string)
    requires ',' !in b
    ensures Pieces(b) == [b]
  {
    NoSeparator(b, ',');
  }

  lemma EntryText(key: string, rest: string)
    requires ':' !in key
    requires var line := key + [':'] + rest; NUL !in line && '#' !in line && '[' !in line
    ensures var line := key + [':'] + rest;
      && ReadLine(line) == Entry(FirstWord(key), ReadValues(Pieces(rest), ""))
      && ValuePieces(line) == Pieces(rest)
  {
    var line := key + [':'] + rest;
    PlainText(line);
    NoSeparator(line, '[');
    IndexOfSplit(key, ':', rest);
    hide IndexOf, LastIndexOf, FirstWord, Pieces, CStr, ReadValues;
    assert line[..|key|] == key && line[|key| + 1..] == rest;
  }

  // A value, nothing, and another value.
  function Gap(a: string, b: string): string {
    a + [','] + ("" + [','] + (b + "\n"))
  }

  lemma GapPieces(a: string, b: string)
    requires IsPlain(a) && IsPlain(b)
    ensures Pieces(Gap(a, b)) == [a, "", b + "\n"]
  {
    hide Pieces;
    PieceLast(b + "\n");
    PieceFirst("", b + "\n");
    PieceFirst(a, "" + [','] + (b + "\n"));
  }

  lemma GapLacks(key: string, a: string, b: string, c: char)
    requires c !in ":,\n" && c !in key && c !in a && c !in b
    ensures c !in key + [':'] + Gap(a, b)
  {}

  lemma PlainWord(w: string)
    requires IsPlain(w)
    ensures w != "" && FirstWord(w) == w && FirstWord(w + "\n") == w
  {
    WordAlone(w);
  }

  lemma GapValues(a: string, b: string)
    requires IsPlain(a) && IsPlain(b)
    ensures ReadValues([a, "", b + "\n"], "") == [a, a, b] && Words([a, "", b + "\n"]) == [a, b]
  {
    hide *;
    ScanBlank("");
    PlainWord(a);
    PlainWord(b);
    ThreeValues([a, "", b + "\n"]);
  }

  // The first value is read twice.
  lemma ValueRepeats(key: string, a: string, b: string)
    requires IsPlain(key) && IsPlain(a) && IsPlain(b)
    ensures var line := key + [':'] + Gap(a, b);
      ReadLine(line) == Entry(key, [a, a, b]) && GivenLine(line) == Entry(key, [a, b])
  {
    hide FirstWord, ReadValues, Words, ReadLine, ValuePieces, Gap, Pieces;
    GapLacks(key, a, b, NUL);
    GapLacks(key, a, b, '#');
    GapLacks(key, a, b, '[');
    EntryText(key, Gap(a, b));
    GapPieces(a, b);
    GapValues(a, b);
    WordAlone(key);
  }

  lemma ValueRepeatsHere()
    ensures ReadLine("k:a,,b\n") == Entry("k", ["a", "a", "b"])
    ensures GivenLine("k:a,,b\n") == Entry("k", ["a", "b"])
  {
    hide ReadLine, GivenLine;
    ValueRepeats("k", "a", "b");
    assert "k:a,,b\n" == "k" + [':'] + Gap("a", "b");
  }

  lemma ThreeValues(ps: seq<string>)
    requires |ps| == 3 && FirstWord(ps[0]) != "" && FirstWord(ps[1]) == "" && FirstWord(ps[2]) != ""
    ensures ReadValues(ps, "") == [FirstWord(ps[0]), FirstWord(ps[0]), FirstWord(ps[2])]
    ensures Words(ps) == [FirstWord(ps[0]), FirstWord(ps[2])]
  {
    hide FirstWord;
    assert ps[1..][1..] == ps[2..] && ps[2..][1..] == [];
    assert Words(ps[2..]) == [FirstWord(ps[2])] + Words([]);
    assert Words(ps[1..]) == [] + Words(ps[2..]);
    assert ReadValues(ps[2..], FirstWord(ps[0])) == [FirstWord(ps[2])] + ReadValues([], FirstWord(ps[2]));
    assert ReadValues(ps[1..], FirstWord(ps[0])) == [FirstWord(ps[0])] + ReadValues(ps[2..], FirstWord(ps[0]));
  }

  // An entry after an empty header stays in the section before it.
  lemma SectionGoesOn(section: string)
    ensures InBrackets("[]\n", "") && ReadLine("[]\n") == Header("")
    ensures NextSection(ReadLine("[]\n"), section) == section
  {
    var line := "[]\n";
    PlainText(line);
    FirstIs(line, '[', 0);
    LastIs(line, ']', 1);
    assert line[1..1] == "";
    HeaderRead(line, "");
    ScanBlank("");
  }

  // ---- Entries that store what was never written ----

  ghost predicate Stored(values: seq<string>) {
    forall k :: 0 <= k < |values| ==> InBuffer(values[k])
  }

  ghost predicate WordsFit(ps: seq<string>) {
    forall k :: 0 <= k < |ps| ==> |FirstWord(ps[k])| < 1024
  }

  lemma {:induction false} StoredExactly(ps: seq<string>, last: string)
    ensures Stored(ReadValues(ps, last)) <==>
      WordsFit(ps) && (ps != [] && AllSpace(ps[0]) ==> InBuffer(last))
  {
    hide FirstWord, AllSpace;
    if ps != [] {
      var w := FirstWord(ps[0]);
      var v := if w == "" then last else w;
      WordThere(ps[0]);
      StoredExactly(ps[1..], v);
      var more := ReadValues(ps[1..], v);
      assert ReadValues(ps, last) == [v] + more;
      assert Stored([v] + more) <==> InBuffer(v) && Stored(more) by { StoredMore(v, more); }
      assert WordsFit(ps) <==> |w| < BUFFER && WordsFit(ps[1..]) by { WordsFitMore(ps); }
    }
  }

  lemma StoredMore(v: string, more: seq<string>)
    ensures Stored([v] + more) <==> InBuffer(v) && Stored(more)
  {
    hide InBuffer;
    assert ([v] + more)[0] == v;
    assert forall k :: 0 <= k < |more| ==> ([v] + more)[k + 1] == more[k];
  }

  lemma WordsFitMore(ps: seq<string>)
    requires ps != []
    ensures WordsFit(ps) <==> |FirstWord(ps[0])| < 1024 && WordsFit(ps[1..])
  {
    hide FirstWord;
    assert forall k :: 0 <= k < |ps[1..]| ==> ps[k + 1] == ps[1..][k];
  }

  // An entry is defined exactly when it has a key and a first value and all its words fit.
  lemma EntryDefinedExactly(line: string)
    requires ReadLine(line).Entry?
    ensures ValuePieces(line) != []
    ensures Defined(line) <==>
      0 < |ReadLine(line).key| < 1024 && WordsFit(ValuePieces(line)) && !AllSpace(ValuePieces(line)[0])
  {
    EntryValues(line);
    EntryPieces(line);
    hide ReadLine, ValuePieces, FirstWord, AllSpace, ReadValues;
    StoredExactly(ValuePieces(line), "");
  }

  lemma EntryPieces(line: string)
    requires ReadLine(line).Entry?
    ensures ValuePieces(line) != []
  {
    hide ReadValues, FirstWord, IndexOf, LastIndexOf, CStr, Before;
  }

  // A key without a value, and a value without a key.
  lemma MissingWord(word: string)
    requires IsPlain(word)
    ensures !Defined(word + [':'] + "\n") && !Defined("" + [':'] + word)
  {
    hide ReadLine, ValuePieces, FirstWord, ReadValues, Pieces;
    EntryText(word, "\n");
    PieceLast("\n");
    EntryDefinedExactly(word + [':'] + "\n");
    EntryText("", word);
    ScanBlank("");
    EntryDefinedExactly("" + [':'] + word);
  }

  lemma MissingWordHere()
    ensures !Readable(Lines("k:\n")) && !Readable(Lines(":v"))
  {
    hide *;
    SingleWords();
    Unreadable("k", "v");
    assert "k:\n" == "k" + [':'] + "\n" && ":v" == "" + [':'] + "v";
  }

  lemma SingleWords()
    ensures IsPlain("k") && IsPlain("v")
  {}

  lemma Unreadable(k: string, v: string)
    requires IsPlain(k) && IsPlain(v)
    ensures !Readable(Lines(k + [':'] + "\n")) && !Readable(Lines("" + [':'] + v))
  {
    hide Defined, IndexOf, Lines;
    MissingWord(k);
    MissingWord(v);
    OneLine(k + [':'], "\n");
    OneLine("" + [':'] + v, "");
    assert "" + [':'] + v + "" == "" + [':'] + v;
  }

  lemma OneLine(a: string, end: string)
    requires a != "" && '\n' !in a && (end == "\n" || end == "")
    ensures Lines(a + end) == [a + end]
  {
    hide IndexOf;
    FirstIs(a + end, '\n', |a|);
    assert (a + end)[|a| + |end|..] == "";
    assert end == "\n" ==> (a + end)[..|a| + 1] == a + end;
  }
}
