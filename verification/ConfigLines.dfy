// The lines of a file: how a text is cut into them, which of them say nothing, and which one stops
// the loader. Blank lines and comments between printed lines do not disturb the round trip.

module ConfigLines {
  import opened CStrings
  import opened ConfigData
  import opened ConfigFile
  import opened ConfigRoundTrip
  import opened ConfigGaps

  // ---- Cutting a text into lines ----

  // Every line but the last ends in its only newline; the last has none before its end.
  ghost predicate AreLines(lines: seq<string>) {
    && (forall i :: 0 <= i < |lines| ==> lines[i] != "" && '\n' !in lines[i][..|lines[i]| - 1])
    && (forall i :: 0 <= i < |lines| - 1 ==> lines[i][|lines[i]| - 1] == '\n')
  }

  // For every text the lines are all of it, in order, cut after each newline and nowhere else.
  lemma {:induction false} LinesExactly(text: string)
    ensures Concatenated(Lines(text)) == text && AreLines(Lines(text))
    decreases |text|
  {
    hide IndexOf, Lines, AreLines, Concatenated;
    NextLine(text);
    if text == "" {
      NoneLeft();
    } else {
      var i := IndexOf(text, '\n');
      var n := if i == |text| then i else i + 1;
      var more := Lines(text[n..]);
      LinesExactly(text[n..]);
      NoLineLeft(text[n..]);
      FirstLine(text, n);
      LinesNext(text[..n], more);
      assert Lines(text) == [text[..n]] + more;
      assert text[..n] + text[n..] == text;
    }
  }

  lemma NoneLeft()
    ensures Concatenated([]) == "" && AreLines([])
  {}

  lemma FirstLine(text: string, n: nat)
    requires text != "" && var i := IndexOf(text, '\n'); n == if i == |text| then i else i + 1
    ensures 0 < n <= |text| && '\n' !in text[..n][..n - 1] && (n < |text| ==> text[n - 1] == '\n')
  {
    var i := IndexOf(text, '\n');
    hide IndexOf;
    assert text[..n][..n - 1] == text[..n - 1];
    assert n - 1 < i ==> text[..n - 1] == text[..i][..n - 1];
  }

  lemma NoLineLeft(text: string)
    ensures Lines(text) == [] <==> text == ""
  {
    NextLine(text);
    hide Lines, IndexOf;
  }

  lemma LinesNext(line: string, more: seq<string>)
    requires AreLines(more) && line != "" && '\n' !in line[..|line| - 1]
    requires more != [] ==> line[|line| - 1] == '\n'
    ensures AreLines([line] + more) && Concatenated([line] + more) == line + Concatenated(more)
  {
    var all := [line] + more;
    assert all[1..] == more;
    assert forall i :: 0 < i < |all| ==> all[i] == more[i - 1];
  }

  // ---- What is left of a line ----

  // The part of a line up to its first NUL or `#`.
  ghost predicate IsText(line: string, t: string) {
    && t <= line && NUL !in t && '#' !in t
    && (|t| < |line| ==> line[|t|] == NUL || line[|t|] == '#')
  }

  lemma TextIs(line: string)
    ensures IsText(line, Text(line))
    ensures forall t :: IsText(line, t) ==> t == Text(line)
  {
    var s := CStr(line);
    var t := Before(s, '#');
    assert t <= s <= line;
    hide CStr, Before;
    forall u | IsText(line, u) ensures u == t {
      OneText(line, u, t);
    }
  }

  lemma OneText(line: string, t: string, u: string)
    requires IsText(line, t) && IsText(line, u)
    ensures t == u
  {
    assert forall k :: 0 <= k < |t| ==> t[k] == line[k];
    assert forall k :: 0 <= k < |u| ==> u[k] == line[k];
  }

  // ---- Lines that say nothing ----

  // Nothing but blanks before the comment.
  ghost predicate IsNoise(line: string) {
    IsLine(line) && AllSpace(Text(line))
  }

  // A line without separators is passed over exactly when it is blank; a word in it ends the loading.
  lemma PlainLine(line: string, section: string, more: seq<string>)
    requires var t := Text(line); ':' !in t && ('[' !in t || ']' !in t)
    ensures FactsOf([line] + more, section) == if AllSpace(Text(line)) then FactsOf(more, section) else []
    ensures Readable([line] + more) <==>
      if AllSpace(Text(line)) then Readable(more) else |FirstWord(Text(line))| < BUFFER
  {
    var t := Text(line);
    WordThere(t);
    PlainRead(line);
    hide FirstWord, AllSpace, ReadLine, Text;
    assert ([line] + more)[1..] == more;
  }

  lemma PlainRead(line: string)
    requires var t := Text(line); ':' !in t && ('[' !in t || ']' !in t)
    ensures ReadLine(line) == if FirstWord(Text(line)) == "" then Blank else Stop
  {
    hide FirstWord, IndexOf, LastIndexOf, CStr, Before;
  }

  // What follows a `#` is no part of a line.
  lemma CommentCut(a: string, comment: string)
    requires NUL !in a && '#' !in a
    ensures Text(a + ['#'] + comment) == a && Text(a) == a
    ensures ReadLine(a + ['#'] + comment) == ReadLine(a)
  {
    var line := a + ['#'] + comment;
    assert IsText(line, a) && IsText(a, a);
    TextIs(line);
    TextIs(a);
  }

  // ---- Entries ----

  lemma {:induction false} PiecesExactly(text: string)
    ensures Joined(Pieces(text)) == text && forall k :: 0 <= k < |Pieces(text)| ==> ',' !in Pieces(text)[k]
    decreases |text|
  {
    hide IndexOf;
    NextPieces(text);
    var i := IndexOf(text, ',');
    if i < |text| {
      PiecesExactly(text[i + 1..]);
      assert ([text[..i]] + Pieces(text[i + 1..]))[1..] == Pieces(text[i + 1..]);
      assert text == text[..i] + "," + text[i + 1..];
    } else {
      assert text[..i] == text;
    }
  }

  // The value is the first word of its piece or, when that has none, the value before.
  ghost predicate ReadsAs(ps: seq<string>, last: string, vs: seq<string>, k: nat)
    requires k < |ps| == |vs|
  {
    vs[k] == if !AllSpace(ps[k]) then FirstWord(ps[k]) else if k == 0 then last else vs[k - 1]
  }

  ghost predicate OneEach(ps: seq<string>, vs: seq<string>) {
    |vs| == |ps| && forall k :: 0 <= k < |ps| ==> ReadsAs(ps, "", vs, k)
  }

  lemma {:induction false} ValuesAt(ps: seq<string>, last: string, k: nat)
    requires k < |ps|
    ensures ReadsAs(ps, last, ReadValues(ps, last), k)
  {
    hide FirstWord, AllSpace;
    WordThere(ps[0]);
    if k > 0 {
      ValuesAt(ps[1..], if FirstWord(ps[0]) == "" then last else FirstWord(ps[0]), k - 1);
    }
  }

  lemma ValuesOneEach(ps: seq<string>)
    ensures OneEach(ps, ReadValues(ps, ""))
  {
    hide ReadsAs, ReadValues;
    forall k | 0 <= k < |ps| ensures ReadsAs(ps, "", ReadValues(ps, ""), k) {
      ValuesAt(ps, "", k);
    }
  }

  // The pieces are what stands between the commas of the text.
  ghost predicate Between(ps: seq<string>, text: string) {
    ps != [] && Joined(ps) == text && forall k :: 0 <= k < |ps| ==> ',' !in ps[k]
  }

  // A line with a colon and without a pair of brackets gives, under the first word before its first
  // colon, one value for each piece between the commas after it.
  lemma EntryExactly(line: string)
    requires var t := Text(line); ':' in t && ('[' !in t || ']' !in t)
    ensures var t, l := Text(line), ReadLine(line);
      var c := IndexOf(t, ':');
      && l.Entry? && l.key == FirstWord(t[..c])
      && Between(ValuePieces(line), t[c + 1..]) && OneEach(ValuePieces(line), l.values)
  {
    EntryRead(line);
    PiecesBetween(line);
    hide FirstWord, IndexOf, Text, ReadLine, ReadValues, ValuePieces, OneEach, Between;
    ValuesOneEach(ValuePieces(line));
  }

  lemma PiecesBetween(line: string)
    requires ':' in Text(line)
    ensures var t := Text(line); Between(ValuePieces(line), t[IndexOf(t, ':') + 1..])
  {
    hide IndexOf, Text, Pieces, Joined;
    var t := Text(line);
    PiecesExactly(t[IndexOf(t, ':') + 1..]);
  }

  lemma EntryRead(line: string)
    requires var t := Text(line); ':' in t && ('[' !in t || ']' !in t)
    ensures var t := Text(line);
      ReadLine(line) == Entry(FirstWord(t[..IndexOf(t, ':')]), ReadValues(ValuePieces(line), ""))
  {
    hide FirstWord, IndexOf, LastIndexOf, CStr, Before, Pieces, ReadValues;
  }

  // ---- Noise between the lines ----

  // Lines with noise between them.
  ghost predicate Among(lines: seq<string>, noisy: seq<string>)
    decreases |noisy|
  {
    if noisy == [] then lines == []
    else
      || (IsNoise(noisy[0]) && Among(lines, noisy[1..]))
      || (lines != [] && lines[0] == noisy[0] && Among(lines[1..], noisy[1..]))
  }

  lemma NoiseSaysNothing(line: string, section: string, more: seq<string>)
    requires IsNoise(line)
    ensures FactsOf([line] + more, section) == FactsOf(more, section)
    ensures Readable([line] + more) <==> Readable(more)
  {
    var t := Text(line);
    assert ':' !in t && '[' !in t;
    hide Text, AllSpace;
    PlainLine(line, section, more);
  }

  lemma {:induction false} NoiseDropped(lines: seq<string>, noisy: seq<string>, section: string)
    requires Among(lines, noisy)
    ensures FactsOf(noisy, section) == FactsOf(lines, section) && (Readable(noisy) <==> Readable(lines))
    decreases |noisy|
  {
    hide IsNoise, ReadLine, LineFacts, NextSection, Defined;
    if noisy != [] {
      assert noisy == [noisy[0]] + noisy[1..];
      if IsNoise(noisy[0]) && Among(lines, noisy[1..]) {
        NoiseSaysNothing(noisy[0], section, noisy[1..]);
        NoiseDropped(lines, noisy[1..], section);
      } else {
        NoiseDropped(lines[1..], noisy[1..], NextSection(ReadLine(noisy[0]), section));
      }
    }
  }

  lemma {:induction false} NoisyLines(lines: seq<string>, noisy: seq<string>)
    requires Among(lines, noisy) && AllLines(lines)
    ensures AllLines(noisy)
    decreases |noisy|
  {
    hide IsLine;
    if noisy != [] {
      assert IsNoise(noisy[0]) ==> IsLine(noisy[0]);
      if IsNoise(noisy[0]) && Among(lines, noisy[1..]) {
        NoisyLines(lines, noisy[1..]);
      } else {
        NoisyLines(lines[1..], noisy[1..]);
      }
      assert forall i :: 0 < i < |noisy| ==> noisy[i] == noisy[1..][i - 1];
    }
  }

  // The round trip with any blank lines and comments between the printed lines.
  lemma NoisyPrintLoad(d: Data, noisy: seq<string>)
    requires Printable(d) && Among(PrintedLines(d), noisy)
    ensures Readable(Lines(Concatenated(noisy))) && Load(Concatenated(noisy)) == d
  {
    hide FactsOf, Lines, PrintedLines, Readable, Among, Concatenated;
    PrintedRead(d, "");
    NoisyLines(PrintedLines(d), noisy);
    LinesOf(noisy);
    LinesOf(PrintedLines(d));
    NoiseDropped(PrintedLines(d), noisy, "");
    PrintLoad(d);
  }
}
