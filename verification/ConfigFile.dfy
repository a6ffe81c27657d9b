// The configuration file: lines cut in place at comments, brackets, colons and commas. The parser
// that works in the line buffer is proved against the reading of each line as a value, and printing
// a configuration and loading it again gives it back.

module ConfigFile {
  import opened CStrings
  import opened ConfigData

  const BUFFER: nat := 1024

  // What one line says. An empty header name stands for a failed conversion.
  datatype Line = Blank | Stop | Header(name: string) | Entry(key: string, values: seq<string>)

  // The text up to a separator, and the pieces between all of them.
  function Before(s: string, c: char): (r: string)
    ensures c !in r
  {
    s[..IndexOf(s, c)]
  }

  function Pieces(s: string): (ps: seq<string>)
    ensures |ps| > 0
    decreases |s|
  {
    var i := IndexOf(s, ',');
    if i == |s| then [s] else [s[..i]] + Pieces(s[i + 1..])
  }

  // Each value is the first word of its piece; a piece without a word repeats the value before it.
  function ReadValues(ps: seq<string>, last: string): (vs: seq<string>)
    ensures |vs| == |ps|
  {
    if ps == [] then []
    else
      var w := FirstWord(ps[0]);
      var v := if w == "" then last else w;
      [v] + ReadValues(ps[1..], v)
  }

  function ReadLine(line: string): Line {
    ReadText(Before(CStr(line), '#'))
  }

  // A line without its comment.
  function ReadText(t: string): Line {
    var open, close := IndexOf(t, '['), LastIndexOf(t, ']');
    if open < |t| && close < |t| then Header(FirstWord(Bracketed(t, open, close)))
    else
      var colon := IndexOf(t, ':');
      if colon == |t| then if FirstWord(t) == "" then Blank else Stop
      else Entry(FirstWord(t[..colon]), ReadValues(Pieces(t[colon + 1..]), ""))
  }

  // A bracket that closes before it opens cuts nothing off the name.
  function Bracketed(t: string, open: nat, close: nat): string
    requires open < |t| && close < |t|
  {
    if open < close then t[open + 1..close] else t[open + 1..]
  }

  // getline(): each line with its newline, the last possibly without.
  function Lines(text: string): seq<string>
    decreases |text|
  {
    if text == "" then []
    else
      var i := IndexOf(text, '\n');
      if i == |text| then [text] else [text[..i + 1]] + Lines(text[i + 1..])
  }

  // What a line adds; a failed header repeats the section it stands in.
  function LineFacts(l: Line, section: string): seq<Fact> {
    match l
    case Header(_) => [Mention(NextSection(l, section))]
    case Entry(key, values) => ValueFacts(section, key, values)
    case _ => []
  }

  function NextSection(l: Line, section: string): string {
    if l.Header? && l.name != "" then l.name else section
  }

  // The facts of a file, up to the first line with a word but no colon or brackets.
  function FactsOf(lines: seq<string>, section: string): seq<Fact>
    decreases |lines|
  {
    if lines == [] || ReadLine(lines[0]).Stop? then []
    else
      var l := ReadLine(lines[0]);
      LineFacts(l, section) + FactsOf(lines[1..], NextSection(l, section))
  }

  function Load(text: string): Data {
    RecordAll([], FactsOf(Lines(text), ""))
  }

  // The line stores no uninitialised and no overlong word: a key or a first value that is missing
  // leaves its buffer as it was, and the buffers hold 1024 characters.
  ghost predicate Defined(line: string) {
    match ReadLine(line)
    case Entry(key, values) => InBuffer(key) && forall v :: v in values ==> InBuffer(v)
    case Header(name) => |name| < BUFFER
    case Stop => |FirstWord(Before(CStr(line), '#'))| < BUFFER
    case Blank => true
  }

  // Every line that is read is defined.
  ghost predicate Readable(lines: seq<string>)
    decreases |lines|
  {
    lines == [] || (Defined(lines[0]) && (ReadLine(lines[0]).Stop? || Readable(lines[1..])))
  }

  ghost predicate InBuffer(w: string) {
    0 < |w| < BUFFER
  }

  // ---- C strings in a buffer ----

  // The C string s starts at position p.
  ghost predicate HoldsAt(b: seq<char>, p: nat, s: string) {
    p + |s| < |b| && b[p..p + |s|] == s && b[p + |s|] == NUL && NUL !in s
  }

  lemma CharAt(b: seq<char>, p: nat, s: string, k: nat)
    requires HoldsAt(b, p, s) && k <= |s|
    ensures p + k < |b| && b[p + k] == if k < |s| then s[k] else NUL
    ensures k < |s| ==> s[k] != NUL
  {
    if k < |s| {
      assert b[p..p + |s|][k] == s[k];
    }
  }

  // Writing a NUL over a character leaves the text before it here and the text after it there.
  lemma CutAt(b: seq<char>, p: nat, s: string, k: nat)
    requires HoldsAt(b, p, s) && k < |s|
    ensures HoldsAt(b[p + k := NUL], p, s[..k])
    ensures HoldsAt(b[p + k := NUL], p + k + 1, s[k + 1..])
  {
    var c := b[p + k := NUL];
    assert c[p..p + k] == b[p..p + |s|][..k];
    assert c[p + k + 1..p + |s|] == b[p..p + |s|][k + 1..];
  }

  // A name between brackets; when the last ']' comes before the first '[' the name runs on.
  lemma BracketsCut(b: seq<char>, s: string, open: nat, close: nat)
    requires HoldsAt(b, 0, s) && open < |s| && close < |s| && open != close
    ensures HoldsAt(b[open := NUL][close := NUL], open + 1, Bracketed(s, open, close))
  {
    CutAt(b, 0, s, open);
    var c := b[open := NUL];
    var r := s[open + 1..];
    if open < close {
      CutAt(c, open + 1, r, close - open - 1);
      assert r[..close - open - 1] == s[open + 1..close];
    } else {
      assert c[close := NUL][open + 1..open + 1 + |r|] == c[open + 1..open + 1 + |r|];
    }
  }

  lemma FirstIs(s: string, c: char, k: nat)
    requires k <= |s| && c !in s[..k] && (k < |s| ==> s[k] == c)
    ensures IndexOf(s, c) == k
  {
    var i := IndexOf(s, c);
    forall j | 0 <= j < k ensures s[j] != c {
      assert s[..k][j] == s[j];
    }
    forall j | 0 <= j < i ensures s[j] != c {
      assert s[..i][j] == s[j];
    }
  }

  lemma LastIs(s: string, c: char, k: nat)
    requires k <= |s| && (k < |s| ==> s[k] == c && c !in s[k + 1..]) && (k == |s| ==> c !in s)
    ensures LastIndexOf(s, c) == k
  {
    var i := LastIndexOf(s, c);
    forall j | k < j < |s| ensures s[j] != c {
      assert s[k + 1..][j - k - 1] == s[j];
    }
    forall j | i < j < |s| ensures s[j] != c {
      assert s[i + 1..][j - i - 1] == s[j];
    }
  }

  method StrChr(buf: array<char>, p: nat, c: char, ghost s: string) returns (found: bool, k: nat)
    requires HoldsAt(buf[..], p, s) && c != NUL
    ensures k == IndexOf(s, c) && (found <==> k < |s|)
  {
    hide IndexOf, HoldsAt;
    k := 0;
    CharAt(buf[..], p, s, 0);
    while buf[p + k] != NUL && buf[p + k] != c
      invariant k <= |s| && c !in s[..k] && p + k < buf.Length
      invariant buf[p + k] == if k < |s| then s[k] else NUL
      decreases |s| - k
    {
      assert s[..k + 1] == s[..k] + [s[k]];
      k := k + 1;
      CharAt(buf[..], p, s, k);
    }
    CharAt(buf[..], p, s, k);
    found := buf[p + k] == c;
    FirstIs(s, c, k);
  }

  method StrRChr(buf: array<char>, p: nat, c: char, ghost s: string) returns (found: bool, k: nat)
    requires HoldsAt(buf[..], p, s) && c != NUL
    ensures k == LastIndexOf(s, c) && (found <==> k < |s|)
  {
    hide LastIndexOf, HoldsAt;
    var i := 0;
    found, k := false, 0;
    CharAt(buf[..], p, s, 0);
    while buf[p + i] != NUL
      invariant i <= |s| && p + i < buf.Length
      invariant buf[p + i] == if i < |s| then s[i] else NUL
      invariant if found then k < i && s[k] == c && c !in s[k + 1..i] else c !in s[..i]
      decreases |s| - i
    {
      assert s[..i + 1] == s[..i] + [s[i]];
      if buf[p + i] == c {
        found, k := true, i;
        assert s[i + 1..i + 1] == "";
      } else if found {
        assert s[k + 1..i + 1] == s[k + 1..i] + [s[i]];
      }
      i := i + 1;
      CharAt(buf[..], p, s, i);
    }
    CharAt(buf[..], p, s, i);
    assert s[..i] == s;
    if !found {
      k := i;
    } else {
      assert s[k + 1..] == s[k + 1..i];
    }
    LastIs(s, c, k);
  }

  lemma SkipStep(s: string, i: nat)
    requires i <= |s|
    ensures SkipSpace(s[i..]) == if i < |s| && IsSpace(s[i]) then SkipSpace(s[i + 1..]) else s[i..]
  {
    if i < |s| {
      assert s[i..][1..] == s[i + 1..];
    }
  }

  lemma WordStep(s: string, i: nat)
    requires i <= |s|
    ensures WordLength(s[i..]) == if i < |s| && !IsSpace(s[i]) then 1 + WordLength(s[i + 1..]) else 0
  {
    if i < |s| {
      assert s[i..][1..] == s[i + 1..];
    }
  }

  method ScanSpace(buf: array<char>, p: nat, ghost s: string) returns (i: nat)
    requires HoldsAt(buf[..], p, s)
    ensures i <= |s| && SkipSpace(s) == s[i..]
  {
    hide HoldsAt, SkipSpace;
    i := 0;
    CharAt(buf[..], p, s, 0);
    assert s[0..] == s;
    while buf[p + i] != NUL && IsSpace(buf[p + i])
      invariant i <= |s| && p + i < buf.Length
      invariant buf[p + i] == if i < |s| then s[i] else NUL
      invariant SkipSpace(s) == SkipSpace(s[i..])
      decreases |s| - i
    {
      SkipStep(s, i);
      i := i + 1;
      CharAt(buf[..], p, s, i);
    }
    CharAt(buf[..], p, s, i);
    SkipStep(s, i);
  }

  method ScanRun(buf: array<char>, p: nat, first: nat, ghost s: string) returns (w: string)
    requires HoldsAt(buf[..], p, s) && first <= |s|
    ensures w == s[first..][..WordLength(s[first..])]
  {
    hide HoldsAt, WordLength;
    var i := first;
    w := "";
    CharAt(buf[..], p, s, i);
    while buf[p + i] != NUL && !IsSpace(buf[p + i])
      invariant first <= i <= |s| && p + i < buf.Length
      invariant buf[p + i] == if i < |s| then s[i] else NUL
      invariant w == s[first..i]
      invariant WordLength(s[first..]) == |w| + WordLength(s[i..])
      decreases |s| - i
    {
      WordStep(s, i);
      assert s[first..i + 1] == s[first..i] + [s[i]];
      w := w + [buf[p + i]];
      i := i + 1;
      CharAt(buf[..], p, s, i);
    }
    CharAt(buf[..], p, s, i);
    WordStep(s, i);
    assert s[first..][..|w|] == s[first..i];
  }

  // sscanf("%s"): the word, "" when the conversion fails.
  method ScanWord(buf: array<char>, p: nat, ghost s: string) returns (w: string)
    requires HoldsAt(buf[..], p, s)
    ensures w == FirstWord(s)
  {
    hide HoldsAt, SkipSpace, WordLength;
    var i := ScanSpace(buf, p, s);
    w := ScanRun(buf, p, i, s);
  }

  // ---- The loader ----

  class ConfigFile {
    const store: Store

    constructor ()
      ensures fresh(store) && store.sections == []
    {
      store := new Store();
    }

    // The values of an entry, one comma at a time.
    method ReadEntry(buf: array<char>, start: nat, ghost text: string, section: string, key: string)
      requires HoldsAt(buf[..], start, text)
      modifies store, buf
      ensures store.sections
           == RecordAll(old(store.sections), ValueFacts(section, key, ReadValues(Pieces(text), "")))
    {
      hide HoldsAt, Pieces, ReadValues, RecordAll, ValueFacts, WithValue, FirstWord, IndexOf, Together;
      var p, value, done := start, "", false;
      ghost var rest, read, left, was := text, [], ReadValues(Pieces(text), ""), store.sections;
      ghost var all := left;
      NoValues(was, section, key);
      TogetherAll(all);
      while !done
        invariant !done ==> HoldsAt(buf[..], p, rest) && left == ReadValues(Pieces(rest), value)
        invariant Together(read, left, all) && (done ==> left == [])
        invariant store.sections == RecordAll(was, ValueFacts(section, key, read))
        decreases !done, |rest|
      {
        NextPiece(rest, value);
        var found, k, w := ReadPiece(buf, p, rest);
        value := if w == "" then value else w;
        store.AddValue(section, key, value);
        OneMoreValue(was, section, key, read, value);
        done := !found;
        left := if found then ReadValues(Pieces(rest[k + 1..]), value) else [];
        TogetherNext(read, value, left, all);
        read := read + [value];
        if found {
          p, rest := p + k + 1, rest[k + 1..];
        }
      }
      TogetherEnd(read, all);
    }

    // A line whose comment is cut off, in the buffer.
    method ParseText(buf: array<char>, ghost t: string, section: string) returns (stop: bool, next: string)
      requires HoldsAt(buf[..], 0, t)
      modifies store, buf
      ensures stop <==> ReadText(t).Stop?
      ensures store.sections == RecordAll(old(store.sections), LineFacts(ReadText(t), section))
      ensures next == NextSection(ReadText(t), section)
    {
      hide HoldsAt, RecordAll, ReadValues, Pieces, FirstWord, WithSection, Bracketed, IndexOf, LastIndexOf;
      stop, next := false, section;
      var opens, open := StrChr(buf, 0, '[', t);
      var closes, close := StrRChr(buf, 0, ']', t);
      if opens && closes {
        var name := ReadName(buf, open, close, t);
        next := if name == "" then section else name;
        store.AddSection(next);
        RecordOne(old(store.sections), Mention(next));
      } else {
        var entry, colon := StrChr(buf, 0, ':', t);
        if !entry {
          var w := ScanWord(buf, 0, t);
          stop := w != "";
          RecordNone(old(store.sections));
        } else {
          Cut(buf, 0, colon, t);
          var key := ScanWord(buf, 0, t[..colon]);
          ReadEntry(buf, colon + 1, t[colon + 1..], section, key);
        }
      }
    }

    // One line, as getline() leaves it in the buffer.
    method ParseLine(buf: array<char>, ghost line: string, section: string) returns (stop: bool, next: string)
      requires buf[..] == line + [NUL] && Defined(line)
      modifies store, buf
      ensures stop <==> ReadLine(line).Stop?
      ensures store.sections == RecordAll(old(store.sections), LineFacts(ReadLine(line), section))
      ensures next == NextSection(ReadLine(line), section)
    {
      hide HoldsAt, RecordAll, CStr, ReadText, Defined, LineFacts, NextSection;
      LineHeld(buf[..], line);
      ghost var s := CStr(line);
      var comment, i := StrChr(buf, 0, '#', s);
      if comment {
        Cut(buf, 0, i, s);
      }
      assert !comment ==> s[..i] == s;
      stop, next := ParseText(buf, s[..i], section);
    }

    // Loading a file records the facts of its lines in order; a file that does not open changes nothing.
    method LoadData(file: Option<string>)
      requires file.Some? ==> Readable(Lines(file.value))
      modifies store
      ensures store.sections == match file
        case Some(text) => RecordAll(old(store.sections), FactsOf(Lines(text), ""))
        case None => old(store.sections)
    {
      if file.Some? {
        LoadText(file.value);
      }
    }

    method LoadText(text: string)
      requires Readable(Lines(text))
      modifies store
      ensures store.sections == RecordAll(old(store.sections), FactsOf(Lines(text), ""))
    {
      hide RecordAll, ReadLine, LineFacts, NextSection, Defined, IndexOf, Lines;
      var rest, section, done := text, "", false;
      ghost var facts := FactsOf(Lines(text), "");
      ghost var was := store.sections;
      while !done
        invariant !done ==> Readable(Lines(rest))
        invariant RecordAll(was, facts) ==
          RecordAll(store.sections, if done then [] else FactsOf(Lines(rest), section))
        decreases !done, |rest|
      {
        NextLine(rest);
        if rest == "" {
          done := true;
        } else {
          var i := IndexOf(rest, '\n');
          var n := if i == |rest| then i else i + 1;
          var line := rest[..n];
          var lineBuf := new char[n + 1](j => if 0 <= j < |line| then line[j] else NUL);
          assert lineBuf[..] == line + [NUL];
          StepFacts(store.sections, Lines(rest), section);
          done, section := ParseLine(lineBuf, line, section);
          rest := rest[n..];
        }
      }
      RecordNone(store.sections);
    }
  }

  // What is read and what is left make up all.
  ghost predicate Together<T>(read: seq<T>, left: seq<T>, all: seq<T>) {
    read + left == all
  }

  lemma TogetherAll<T>(all: seq<T>)
    ensures Together([], all, all)
  {}

  lemma TogetherNext<T>(read: seq<T>, x: T, left: seq<T>, all: seq<T>)
    requires Together(read, [x] + left, all)
    ensures Together(read + [x], left, all)
  {
    assert read + [x] + left == read + ([x] + left);
  }

  lemma TogetherEnd<T>(read: seq<T>, all: seq<T>)
    requires Together(read, [], all)
    ensures read == all
  {
    assert read + [] == read;
  }

  // The word before the next comma, which is cut.
  method ReadPiece(buf: array<char>, p: nat, ghost rest: string) returns (found: bool, k: nat, w: string)
    requires HoldsAt(buf[..], p, rest)
    modifies buf
    ensures k == IndexOf(rest, ',') && (found <==> k < |rest|) && w == FirstWord(rest[..k])
    ensures found ==> HoldsAt(buf[..], p + k + 1, rest[k + 1..])
  {
    hide HoldsAt, FirstWord, IndexOf;
    found, k := StrChr(buf, p, ',', rest);
    if found {
      Cut(buf, p, k, rest);
    }
    assert !found ==> rest[..k] == rest;
    w := ScanWord(buf, p, rest[..k]);
  }

  // Writing a NUL over a separator.
  method Cut(buf: array<char>, p: nat, k: nat, ghost s: string)
    requires HoldsAt(buf[..], p, s) && k < |s|
    modifies buf
    ensures HoldsAt(buf[..], p, s[..k]) && HoldsAt(buf[..], p + k + 1, s[k + 1..])
  {
    CutAt(buf[..], p, s, k);
    ghost var b := buf[..];
    buf[p + k] := NUL;
    assert buf[..] == b[p + k := NUL];
  }

  method ReadName(buf: array<char>, open: nat, close: nat, ghost t: string) returns (name: string)
    requires HoldsAt(buf[..], 0, t) && open < |t| && close < |t| && open != close
    modifies buf
    ensures name == FirstWord(Bracketed(t, open, close))
  {
    hide FirstWord, Bracketed;
    ghost var b := buf[..];
    BracketsCut(b, t, open, close);
    buf[open] := NUL;
    buf[close] := NUL;
    assert buf[..] == b[open := NUL][close := NUL];
    name := ScanWord(buf, open + 1, Bracketed(t, open, close));
  }

  lemma NextLine(text: string)
    ensures text == "" ==> Lines(text) == []
    ensures text != "" ==>
      var i := IndexOf(text, '\n');
      var n := if i == |text| then i else i + 1;
      Lines(text) != [] && Lines(text)[0] == text[..n] && Lines(text)[1..] == Lines(text[n..])
  {
    if text != "" {
      var i := IndexOf(text, '\n');
      var n := if i == |text| then i else i + 1;
      assert Lines(text) == [text[..n]] + Lines(text[n..]) by {
        hide IndexOf;
        assert text[..|text|] == text;
      }
      hide Lines, IndexOf;
      FirstAndRest(text[..n], Lines(text[n..]));
    }
  }

  lemma FirstAndRest<T>(x: T, rest: seq<T>)
    ensures ([x] + rest)[0] == x && ([x] + rest)[1..] == rest
  {}

  lemma NextPieces(text: string)
    ensures var i := IndexOf(text, ',');
      Pieces(text) == [text[..i]] + if i == |text| then [] else Pieces(text[i + 1..])
  {
    hide IndexOf;
    assert text[..|text|] == text;
  }

  lemma NextValue(p: string, ps: seq<string>, last: string)
    ensures var w := FirstWord(p);
      var v := if w == "" then last else w;
      ReadValues([p] + ps, last) == [v] + ReadValues(ps, v)
  {
    hide FirstWord;
    FirstAndRest(p, ps);
  }

  lemma NoPieces(last: string)
    ensures ReadValues([], last) == []
  {}

  lemma NextPiece(text: string, last: string)
    ensures var i := IndexOf(text, ',');
      var w := FirstWord(text[..i]);
      var v := if w == "" then last else w;
      ReadValues(Pieces(text), last) == [v] + if i == |text| then [] else ReadValues(Pieces(text[i + 1..]), v)
  {
    hide FirstWord, Pieces, ReadValues, IndexOf;
    var i := IndexOf(text, ',');
    var w := FirstWord(text[..i]);
    NextPieces(text);
    NextValue(text[..i], if i == |text| then [] else Pieces(text[i + 1..]), last);
    NoPieces(if w == "" then last else w);
  }

  lemma LineHeld(b: seq<char>, line: string)
    requires b == line + [NUL]
    ensures HoldsAt(b, 0, CStr(line))
  {
    assert b[0..|CStr(line)|] == CStr(line);
  }

  lemma StepFacts(d: Data, lines: seq<string>, section: string)
    requires lines != []
    ensures var l := ReadLine(lines[0]);
      RecordAll(d, FactsOf(lines, section))
        == RecordAll(RecordAll(d, LineFacts(l, section)),
                     if l.Stop? then [] else FactsOf(lines[1..], NextSection(l, section)))
  {
    hide RecordAll;
    var l := ReadLine(lines[0]);
    if !l.Stop? {
      RecordConcat(d, LineFacts(l, section), FactsOf(lines[1..], NextSection(l, section)));
    } else {
      RecordNone(RecordAll(d, []));
    }
  }

  // ---- What a loaded file holds ----

  ghost predicate NamedKeys(d: Data) {
    forall i, j :: 0 <= i < |d| && 0 <= j < |d[i].attributes| ==> d[i].attributes[j].name != ""
  }

  lemma RecordNamed(d: Data, f: Fact)
    requires NamedKeys(d) && (f.Fact? ==> f.key != "")
    ensures NamedKeys(Record(d, f))
  {
    hide FindSection, FindAttribute;
  }

  lemma {:induction false} RecordAllNamed(d: Data, fs: seq<Fact>)
    requires NamedKeys(d) && forall k :: 0 <= k < |fs| && fs[k].Fact? ==> fs[k].key != ""
    ensures NamedKeys(RecordAll(d, fs))
    decreases |fs|
  {
    hide Record, NamedKeys;
    if fs != [] {
      RecordNamed(d, fs[0]);
      RecordAllNamed(Record(d, fs[0]), fs[1..]);
    }
  }

  lemma {:induction false} FactsNamed(lines: seq<string>, section: string)
    requires Readable(lines)
    ensures forall k :: 0 <= k < |FactsOf(lines, section)| && FactsOf(lines, section)[k].Fact? ==>
      FactsOf(lines, section)[k].key != ""
    decreases |lines|
  {
    hide ReadLine;
    if lines != [] && !ReadLine(lines[0]).Stop? {
      FactsNamed(lines[1..], NextSection(ReadLine(lines[0]), section));
    }
  }

  // Loading any readable text leaves distinct section names, distinct and non-empty keys, and under
  // each section and key exactly the values that the lines gave, in order.
  lemma LoadedExactly(text: string, section: string, key: string)
    requires Readable(Lines(text))
    ensures DistinctNames(Load(text)) && NamedKeys(Load(text))
    ensures Values(Load(text), section, key) == ValuesIn(FactsOf(Lines(text), ""), section, key)
  {
    hide RecordAll, FactsOf, Readable, Lines;
    var fs := FactsOf(Lines(text), "");
    FactsNamed(Lines(text), "");
    RecordAllNamed([], fs);
    RecordedExactly([], fs, section, key);
  }
}
