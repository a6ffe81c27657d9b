// The C string operations that the parsers of the proxy are built from.
// A C string is a `string` whose text ends at its first NUL, or at its end.

module CStrings {
  datatype Option<+T> = None | Some(value: T)

  const NUL: char := '\0'

  // isspace() in the "C" locale: tab, newline, vertical tab, form feed, return, blank.
  predicate IsSpace(c: char) {
    c == ' ' || '\t' <= c <= '\r'
  }

  lemma SpacesAre(c: char)
    ensures IsSpace(c) <==> c as int in {0x20, 0x09, 0x0A, 0x0B, 0x0C, 0x0D}
  {}

  predicate IsWord(s: string) {
    |s| > 0 && (forall i :: 0 <= i < |s| ==> !IsSpace(s[i])) && NUL !in s
  }

  // strchr(): the first position of c, or |s| when c does not occur.
  function IndexOf(s: string, c: char): (i: nat)
    ensures i <= |s|
    ensures i < |s| ==> s[i] == c
    ensures c !in s[..i]
    ensures i < |s| <==> c in s
  {
    if s == "" then 0 else if s[0] == c then 0 else
    var k := IndexOf(s[1..], c);
    assert s[..k + 1] == [s[0]] + s[1..][..k];
    assert s == [s[0]] + s[1..];
    k + 1
  }

  // strrchr(): the last position of c, or |s| when c does not occur.
  function LastIndexOf(s: string, c: char): (i: nat)
    ensures i <= |s|
    ensures i < |s| ==> s[i] == c && c !in s[i + 1..]
    ensures i < |s| <==> c in s
  {
    if s == "" then 0
    else if s[|s| - 1] == c then |s| - 1
    else
      var k := LastIndexOf(s[..|s| - 1], c);
      assert s == s[..|s| - 1] + [s[|s| - 1]];
      assert k < |s| - 1 ==> s[k + 1..] == s[..|s| - 1][k + 1..] + [s[|s| - 1]];
      if k == |s| - 1 then |s| else k
  }

  function CStr(s: string): (r: string)
    ensures NUL !in r
  {
    s[..IndexOf(s, NUL)]
  }

  function SkipSpace(s: string): (r: string)
    ensures r == "" || !IsSpace(r[0])
    ensures exists k :: 0 <= k <= |s| && r == s[k..]
  {
    if s == "" then assert s == s[0..]; s
    else if IsSpace(s[0]) then
      var r := SkipSpace(s[1..]);
      ghost var k :| 0 <= k <= |s[1..]| && r == s[1..][k..];
      assert r == s[k + 1..];
      r
    else assert s == s[0..]; s
  }

  // The length of the leading run of non-space characters.
  function WordLength(s: string): (n: nat)
    ensures n <= |s|
    ensures forall i :: 0 <= i < n ==> !IsSpace(s[i])
    ensures n < |s| ==> IsSpace(s[n])
  {
    if s == "" || IsSpace(s[0]) then 0 else 1 + WordLength(s[1..])
  }

  // What sscanf("%s") stores: the first word, "" when there is none (a failed conversion).
  function FirstWord(s: string): (w: string)
    ensures w == "" || IsWordOf(w, s)
  {
    var t := SkipSpace(s);
    t[..WordLength(t)]
  }

  predicate IsWordOf(w: string, s: string) {
    |w| > 0 && forall i :: 0 <= i < |w| ==> !IsSpace(w[i]) && w[i] in s
  }

  // What follows the first word.
  function AfterWord(s: string): string {
    var t := SkipSpace(s);
    t[WordLength(t)..]
  }

  predicate AllSpace(s: string) {
    forall i :: 0 <= i < |s| ==> IsSpace(s[i])
  }

  lemma {:induction false} SkipLeading(a: string, s: string)
    requires AllSpace(a)
    ensures SkipSpace(a + s) == SkipSpace(s)
  {
    if a == "" {
      assert a + s == s;
    } else {
      assert (a + s)[1..] == a[1..] + s;
      SkipLeading(a[1..], s);
    }
  }

  lemma {:induction false} WordPrefix(w: string, s: string)
    requires forall i :: 0 <= i < |w| ==> !IsSpace(w[i])
    requires s == "" || IsSpace(s[0])
    ensures WordLength(w + s) == |w|
  {
    if w == "" {
      assert w + s == s;
    } else {
      assert (w + s)[1..] == w[1..] + s;
      WordPrefix(w[1..], s);
    }
  }

  lemma WordHasNoSpace(s: string)
    ensures forall i :: 0 <= i < |FirstWord(s)| ==> !IsSpace(FirstWord(s)[i])
  {}

  lemma WordAfterBlanks(blanks: string, w: string, s: string)
    requires AllSpace(blanks) && w != "" && forall i :: 0 <= i < |w| ==> !IsSpace(w[i])
    requires s == "" || IsSpace(s[0])
    ensures FirstWord(blanks + w + s) == w && AfterWord(blanks + w + s) == s
  {
    assert blanks + w + s == blanks + (w + s);
    SkipLeading(blanks, w + s);
    assert SkipSpace(w + s) == w + s;
    WordPrefix(w, s);
  }

  // Scanning a word between blanks yields that word and leaves what follows.
  lemma WordBetween(a: string, w: string, s: string)
    requires AllSpace(a) && IsWord(w)
    requires s == "" || IsSpace(s[0])
    ensures FirstWord(a + w + s) == w && AfterWord(a + w + s) == s
  {
    hide FirstWord, AfterWord;
    WordAfterBlanks(a, w, s);
  }

  lemma SpaceSkipped(s: string)
    requires s != "" && IsSpace(s[0])
    ensures FirstWord(s) == FirstWord(s[1..]) && AfterWord(s) == AfterWord(s[1..])
    ensures AllSpace(s) <==> AllSpace(s[1..])
  {
    hide WordLength, IsSpace;
    assert s == [s[0]] + s[1..];
  }

  lemma WordFirst(s: string)
    requires s != "" && !IsSpace(s[0])
    ensures s == "" + FirstWord(s) + AfterWord(s) && FirstWord(s) != ""
    ensures AfterWord(s) == "" || IsSpace(AfterWord(s)[0])
  {
    hide IsSpace;
  }

  // Any text that is not blank is blanks, its first word, and what follows that.
  lemma {:induction false} FirstWordSplits(s: string) returns (blanks: string)
    requires !AllSpace(s)
    ensures AllSpace(blanks) && s == blanks + FirstWord(s) + AfterWord(s) && FirstWord(s) != ""
    ensures AfterWord(s) == "" || IsSpace(AfterWord(s)[0])
  {
    NotBlank(s);
    if IsSpace(s[0]) {
      SpaceSkipped(s);
      hide *;
      blanks := FirstWordSplits(s[1..]);
      OneMoreBlank(s, blanks);
      blanks := [s[0]] + blanks;
    } else {
      WordFirst(s);
      hide FirstWord, AfterWord;
      blanks := "";
    }
  }

  lemma NotBlank(s: string)
    requires !AllSpace(s)
    ensures s != ""
  {}

  lemma OneMoreBlank(s: string, blanks: string)
    requires s != "" && IsSpace(s[0]) && AllSpace(blanks)
    requires s[1..] == blanks + FirstWord(s[1..]) + AfterWord(s[1..])
    ensures AllSpace([s[0]] + blanks)
    ensures s == [s[0]] + blanks + FirstWord(s[1..]) + AfterWord(s[1..])
  {
    hide FirstWord, AfterWord;
    assert s == [s[0]] + s[1..];
  }

  lemma {:induction false} ScanBlank(a: string)
    requires AllSpace(a)
    ensures FirstWord(a) == ""
  {
    SkipLeading(a, "");
    assert a + "" == a;
  }

  // The first occurrence splits a concatenation.
  lemma {:induction false} IndexOfSplit(a: string, c: char, b: string)
    requires c !in a
    ensures IndexOf(a + [c] + b, c) == |a|
  {
    if a == "" {
      assert (a + [c] + b)[0] == c;
    } else {
      assert (a + [c] + b)[1..] == a[1..] + [c] + b;
      IndexOfSplit(a[1..], c, b);
    }
  }
}
