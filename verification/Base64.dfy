// Base64 (section 4 of RFC 4648): the alphabet, an encoder, the reference decoder, and the
// shifting-accumulator decoder of AuthManager::Base64Decode proved against it.

module Base64 {
  import opened CStrings
  import opened Words

  const TWO32: int := 0x1_0000_0000

  // The value of a symbol of the alphabet, -1 for any other character.
  function SymbolValue(c: char): (v: int)
    ensures -1 <= v < 64
  {
    if 'A' <= c <= 'Z' then c as int - 'A' as int
    else if 'a' <= c <= 'z' then c as int - 'a' as int + 26
    else if '0' <= c <= '9' then c as int - '0' as int + 52
    else if c == '+' then 62
    else if c == '/' then 63
    else -1
  }

  function Symbol(v: int): (c: char)
    requires 0 <= v < 64
    ensures SymbolValue(c) == v && c != '=' && c != NUL && !IsSpace(c)
  {
    if v < 26 then ('A' as int + v) as char
    else if v < 52 then ('a' as int + v - 26) as char
    else if v < 62 then ('0' as int + v - 52) as char
    else if v == 62 then '+' else '/'
  }

  // The alphabet of section 4 of RFC 4648, in order.
  const ALPHABET := "ABCDEFGHIJKLMNOPQRSTUVWXYZ" + "abcdefghijklmnopqrstuvwxyz" + "0123456789" + "+/"

  lemma AlphabetAt(v: int)
    requires 0 <= v < 64
    ensures |ALPHABET| == 64 && Symbol(v) == ALPHABET[v]
  {
    var upper, lower, digits := "ABCDEFGHIJKLMNOPQRSTUVWXYZ", "abcdefghijklmnopqrstuvwxyz", "0123456789";
    assert forall i :: 0 <= i < 26 ==> upper[i] as int == 'A' as int + i;
    assert forall i :: 0 <= i < 26 ==> lower[i] as int == 'a' as int + i;
    assert forall i :: 0 <= i < 10 ==> digits[i] as int == '0' as int + i;
    assert v < 26 ==> ALPHABET[v] == upper[v];
    assert 26 <= v < 52 ==> ALPHABET[v] == lower[v - 26];
    assert 52 <= v < 62 ==> ALPHABET[v] == digits[v - 52];
  }

  // Each symbol has its index for a value, and no other character has one.
  lemma AlphabetExactly(c: char, v: int)
    requires 0 <= v < 64
    ensures |ALPHABET| == 64 && (SymbolValue(c) == v <==> c == ALPHABET[v])
    ensures SymbolValue(c) == -1 <==> c !in ALPHABET
  {
    hide SymbolValue, Symbol;
    AlphabetAt(v);
    SymbolOf(c);
    if SymbolValue(c) >= 0 {
      AlphabetAt(SymbolValue(c));
    } else {
      forall i | 0 <= i < |ALPHABET| ensures ALPHABET[i] != c {
        AlphabetAt(i);
      }
    }
  }

  lemma SymbolOf(c: char)
    ensures SymbolValue(c) >= 0 ==> Symbol(SymbolValue(c)) == c
  {}

  predicate ValidChar(c: char) {
    c == '=' || SymbolValue(c) >= 0
  }

  predicate Decodable(s: string) {
    |s| % 4 == 0 && forall i :: 0 <= i < |s| ==> ValidChar(s[i])
  }

  lemma {:induction false} DecodableExactly(s: string)
    ensures Decodable(s) <==> |s| % 4 == 0 && forall i :: 0 <= i < |s| ==> s[i] == '=' || s[i] in ALPHABET
  {
    hide SymbolValue;
    forall i | 0 <= i < |s| ensures SymbolValue(s[i]) == -1 <==> s[i] !in ALPHABET {
      AlphabetExactly(s[i], 0);
    }
    hide *;
  }

  // The six bits a character contributes; padding contributes zeros.
  function Bits(c: char): (v: int)
    requires ValidChar(c)
    ensures 0 <= v < 64
  {
    if c == '=' then 0 else SymbolValue(c)
  }

  function Group(a: char, b: char, c: char, d: char): (r: seq<byte>)
    requires ValidChar(a) && ValidChar(b) && ValidChar(c) && ValidChar(d)
    ensures |r| == 3
  {
    var n := Bits(a) * 262144 + Bits(b) * 4096 + Bits(c) * 64 + Bits(d);
    [n / 65536, n / 256 % 256, n % 256]
  }

  // The three bytes are the number that the four symbols write in base 64, padding counting as 0.
  lemma GroupExactly(a: char, b: char, c: char, d: char)
    requires ValidChar(a) && ValidChar(b) && ValidChar(c) && ValidChar(d)
    ensures var r := Group(a, b, c, d);
      r[0] as int * 0x1_0000 + r[1] as int * 0x100 + r[2] as int
        == ((Bits(a) * 0x40 + Bits(b)) * 0x40 + Bits(c)) * 0x40 + Bits(d)
    ensures Bits('=') == 0 && (a != '=' ==> Bits(a) == SymbolValue(a))
  {
    hide SymbolValue;
    ThreeBytes(Bits(a) * 262144 + Bits(b) * 4096 + Bits(c) * 64 + Bits(d));
  }

  lemma ThreeBytes(n: nat)
    ensures n / 65536 * 65536 + n / 256 % 256 * 256 + n % 256 == n
  {
    assert n / 65536 == n / 256 / 256;
  }

  // Reference decoder: four characters at a time, 24 bits each.
  function Decode(s: string): (r: seq<byte>)
    requires Decodable(s)
    ensures |r| == |s| / 4 * 3
  {
    if s == "" then [] else Group(s[0], s[1], s[2], s[3]) + Decode(s[4..])
  }

  // Four symbols for one to three bytes, padded with '='.
  function Chunk(b: seq<byte>): (s: string)
    requires 1 <= |b| <= 3
    ensures |s| == 4 && Decodable(s) && IsClean(s)
  {
    var b1: byte := if |b| > 1 then b[1] else 0;
    var b2: byte := if |b| > 2 then b[2] else 0;
    [Symbol(b[0] / 4), Symbol(b[0] % 4 * 16 + b1 / 16),
     if |b| > 1 then Symbol(b1 % 16 * 4 + b2 / 64) else '=',
     if |b| > 2 then Symbol(b2 % 64) else '=']
  }

  function Encode(b: seq<byte>): (s: string)
    ensures Decodable(s) && IsClean(s)
  {
    if b == [] then "" else if |b| <= 3 then Chunk(b) else Chunk(b[..3]) + Encode(b[3..])
  }

  // No blank and no NUL: such a text survives scanning as one C word.
  predicate IsClean(s: string) {
    forall i :: 0 <= i < |s| ==> s[i] != NUL && !IsSpace(s[i])
  }

  function Zeros(n: nat): (z: seq<byte>)
    ensures |z| == n && forall i :: 0 <= i < n ==> z[i] == 0
  {
    seq(n, _ => 0)
  }

  function Padding(n: nat): nat {
    (3 - n % 3) % 3
  }

  lemma Unpack(b0: byte, b1: byte, b2: byte)
    ensures var n := b0 / 4 * 262144 + (b0 % 4 * 16 + b1 / 16) * 4096 + (b1 % 16 * 4 + b2 / 64) * 64 + b2 % 64;
            n / 65536 == b0 && n / 256 % 256 == b1 && n % 256 == b2
  {
    Recombine(b0 / 4, b0 % 4, b1 / 16, b1 % 16, b2 / 64, b2 % 64);
    SplitBytes(b0, b1, b2);
  }

  lemma Recombine(q0: int, r0: int, q1: int, r1: int, q2: int, r2: int)
    ensures q0 * 262144 + (r0 * 16 + q1) * 4096 + (r1 * 4 + q2) * 64 + r2
         == (q0 * 4 + r0) * 65536 + (q1 * 16 + r1) * 256 + (q2 * 64 + r2)
  {}

  lemma SplitBytes(b0: byte, b1: byte, b2: byte)
    ensures var n := b0 * 65536 + b1 * 256 + b2;
            n / 65536 == b0 && n / 256 % 256 == b1 && n % 256 == b2
  {
    var n := b0 * 65536 + b1 * 256 + b2;
    assert n / 256 == b0 * 256 + b1;
  }

  lemma ChunkRoundTrip(b: seq<byte>)
    requires 1 <= |b| <= 3
    ensures var s := Chunk(b); Group(s[0], s[1], s[2], s[3]) == b + Zeros(3 - |b|)
  {
    var b1: byte := if |b| > 1 then b[1] else 0;
    var b2: byte := if |b| > 2 then b[2] else 0;
    Unpack(b[0], b1, b2);
    assert b + Zeros(3 - |b|) == [b[0], b1, b2];
  }

  lemma DecodeCons(g: string, s: string)
    requires Decodable(s) && Decodable(g) && |g| == 4
    ensures Decodable(g + s)
    ensures Decode(g + s) == Group(g[0], g[1], g[2], g[3]) + Decode(s)
  {
    assert (g + s)[4..] == s;
  }

  // Decoding an encoding gives the bytes back, followed only by zeros up to a multiple of three.
  lemma {:induction false} RoundTrip(b: seq<byte>)
    ensures Decode(Encode(b)) == b + Zeros(Padding(|b|))
    decreases |b|
  {
    hide Chunk, Group, Decode;
    if b == [] {
      assert Decode("") == [] by { DecodeEmpty(); }
    } else if |b| <= 3 {
      ChunkRoundTrip(b);
      DecodeCons(Chunk(b), "");
      assert Decode("") == [] by { DecodeEmpty(); }
      assert Chunk(b) + "" == Chunk(b);
      assert Padding(|b|) == 3 - |b|;
    } else {
      ChunkRoundTrip(b[..3]);
      RoundTrip(b[3..]);
      DecodeCons(Chunk(b[..3]), Encode(b[3..]));
      assert Padding(|b|) == Padding(|b[3..]|);
      assert b == b[..3] + b[3..];
      assert b[..3] + Zeros(0) == b[..3];
    }
  }

  lemma DecodeEmpty()
    ensures Decode("") == []
  {}

  lemma {:induction false} EncodeLength(b: seq<byte>)
    ensures |Encode(b)| == (|b| + 2) / 3 * 4
    decreases |b|
  {
    hide Chunk, Symbol;
    if |b| > 3 {
      EncodeLength(b[3..]);
    }
  }

  // One more group at the end decodes to three more bytes.
  lemma {:induction false} DecodeSnoc(s: string, g: string)
    requires Decodable(s) && Decodable(g) && |g| == 4
    ensures Decodable(s + g)
    ensures Decode(s + g) == Decode(s) + Group(g[0], g[1], g[2], g[3])
  {
    hide Group;
    if s == "" {
      assert s + g == g;
      assert g[4..] == "";
    } else {
      assert (s + g)[4..] == s[4..] + g;
      DecodeSnoc(s[4..], g);
    }
  }

  // Bitwise or on naturals.
  function Or(a: nat, b: nat): nat
    decreases a + b
  {
    if a == 0 && b == 0 then 0
    else 2 * Or(a / 2, b / 2) + (if a % 2 == 1 || b % 2 == 1 then 1 else 0)
  }

  function Pow2(k: nat): nat {
    if k == 0 then 1 else 2 * Pow2(k - 1)
  }

  // Or-ing into cleared low bits is adding.
  lemma {:induction false} OrDisjoint(q: nat, b: nat, k: nat)
    requires b < Pow2(k)
    ensures Or(q * Pow2(k), b) == q * Pow2(k) + b
    decreases k, q
  {
    var a := q * Pow2(k);
    if k == 0 {
      OrZero(a);
    } else {
      assert a == 2 * (q * Pow2(k - 1)) by { Doubling(q, Pow2(k - 1)); }
      OrDisjoint(q, b / 2, k - 1);
    }
  }

  lemma Doubling(q: nat, p: nat)
    ensures q * (2 * p) == 2 * (q * p)
  {}

  lemma {:induction false} OrZero(a: nat)
    ensures Or(a, 0) == a
  {
    if a != 0 {
      OrZero(a / 2);
    }
  }

  // The accumulator after a partial group: what has been read, shifted left by six once more.
  function Partial(g: string): (t: nat)
    requires |g| < 4 && forall i :: 0 <= i < |g| ==> ValidChar(g[i])
  {
    if |g| == 0 then 0
    else if |g| == 1 then Bits(g[0]) * 64
    else if |g| == 2 then (Bits(g[0]) * 64 + Bits(g[1])) * 64
    else ((Bits(g[0]) * 64 + Bits(g[1])) * 64 + Bits(g[2])) * 64
  }

  // The three bytes stored from a full accumulator, each cut to eight bits.
  function Bytes(t: nat): (r: seq<byte>)
    ensures |r| == 3
  {
    [t / 65536 % 256, t / 256 % 256, t % 256]
  }

  method StoreGroup(buf: array<byte>, dst: nat, tmp: nat)
    requires dst + 3 <= buf.Length
    modifies buf
    ensures buf[..dst + 3] == old(buf[..dst]) + Bytes(tmp)
    ensures forall i :: dst + 3 <= i < buf.Length ==> buf[i] == old(buf[i])
  {
    buf[dst], buf[dst + 1], buf[dst + 2] := tmp / 65536 % 256, tmp / 256 % 256, tmp % 256;
  }

  lemma Bytes24(t: nat)
    requires t < 0x100_0000
    ensures t / 65536 % 256 == t / 65536 < 256
  {}

  // Or-ing in the bits of one more character adds them: the low six bits are clear.
  lemma OrStep(g: string, c: char)
    requires |g| < 4 && forall i :: 0 <= i < |g| ==> ValidChar(g[i])
    requires ValidChar(c)
    ensures Or(Partial(g), Bits(c)) == Partial(g) + Bits(c) < 0x100_0000
  {
    assert Pow2(6) == 64 by { assert Pow2(3) == 8; assert Pow2(5) == 32; }
    var q := if |g| == 0 then 0 else if |g| == 1 then Bits(g[0])
             else if |g| == 2 then Bits(g[0]) * 64 + Bits(g[1])
             else (Bits(g[0]) * 64 + Bits(g[1])) * 64 + Bits(g[2]);
    assert Partial(g) == q * 64;
    OrDisjoint(q, Bits(c), 6);
  }

  // A short group stays below 2^32 when shifted on; a full one splits into its three bytes.
  lemma ShiftStep(g: string, c: char)
    requires |g| < 3 && forall i :: 0 <= i < |g| ==> ValidChar(g[i])
    requires ValidChar(c)
    ensures (Partial(g) + Bits(c)) * 64 % TWO32 == Partial(g + [c])
  {
    assert (Partial(g) + Bits(c)) * 64 == Partial(g + [c]);
  }

  lemma FullGroup(g: string, c: char)
    requires |g| == 3 && forall i :: 0 <= i < |g| ==> ValidChar(g[i])
    requires ValidChar(c)
    ensures Group(g[0], g[1], g[2], c) == Bytes(Partial(g) + Bits(c))
  {
    var t := Bits(g[0]) * 262144 + Bits(g[1]) * 4096 + Bits(g[2]) * 64 + Bits(c);
    assert Partial(g) + Bits(c) == t;
    Bytes24(t);
  }

  // Where the decoder stands after idx characters: whole groups decoded into `out`, the rest in
  // the accumulator.
  ghost predicate Progress(text: string, idx: nat, tmp: nat, out: seq<byte>) {
    && idx <= |text|
    && (forall i :: 0 <= i < idx ==> ValidChar(text[i]))
    && var base := idx - idx % 4;
       out == Decode(text[..base]) && tmp == Partial(text[base..idx])
  }

  lemma ProgressStart(text: string)
    ensures Progress(text, 0, 0, [])
  {}

  lemma ProgressEnd(text: string, tmp: nat, out: seq<byte>)
    requires Progress(text, |text|, tmp, out) && |text| % 4 == 0
    ensures Decodable(text) && out == Decode(text)
  {
    assert text[..|text|] == text;
  }

  lemma Mod4(idx: nat)
    ensures idx - idx % 4 >= 0 && (idx - idx % 4) % 4 == 0
    ensures (idx + 1) % 4 == 0 <==> idx % 4 == 3
    ensures (idx + 1) - (idx + 1) % 4 == if idx % 4 == 3 then idx + 1 else idx - idx % 4
  {
    var q, r := idx / 4, idx % 4;
    assert idx == 4 * q + r;
    if r == 3 {
      assert idx + 1 == 4 * (q + 1);
    } else {
      assert idx + 1 == 4 * q + (r + 1) && (idx + 1) / 4 == q;
    }
  }

  // Three bytes for every four characters fit the buffer, with room for a NUL.
  lemma Room(length: nat, idx: nat)
    requires idx <= length
    ensures idx / 4 * 3 <= (length * 3 + 3) / 4
    ensures (idx + 1) / 4 == idx / 4 + if (idx + 1) % 4 == 0 then 1 else 0
  {
    var k := idx / 4;
    assert 4 * (3 * k) <= length * 3;
    Mod4(idx);
  }

  lemma ProgressStep(text: string, idx: nat, tmp: nat, out: seq<byte>)
    requires Progress(text, idx, tmp, out)
    requires idx < |text| && ValidChar(text[idx])
    ensures var t := Or(tmp, Bits(text[idx]));
      && t == tmp + Bits(text[idx])
      && if (idx + 1) % 4 == 0
         then Progress(text, idx + 1, 0, out + Bytes(t))
         else Progress(text, idx + 1, t * 64 % TWO32, out)
  {
    hide Group, Or, Bits, SymbolValue, Bytes, Decode;
    Mod4(idx);
    var base := idx - idx % 4;
    var g, c := text[base..idx], text[idx];
    OrStep(g, c);
    assert text[base..idx + 1] == g + [c];
    if idx % 4 == 3 {
      FullGroup(g, c);
      DecodeSnoc(text[..base], g + [c]);
      assert text[..idx + 1] == text[..base] + (g + [c]);
      assert text[idx + 1..idx + 1] == "";
    } else {
      ShiftStep(g, c);
    }
  }

  lemma NotDecodable(text: string, idx: nat)
    requires idx < |text| && !ValidChar(text[idx])
    ensures !Decodable(text)
  {}

  lemma NotWhole(text: string)
    requires |text| % 4 != 0
    ensures !Decodable(text)
  {}

  // The alphabet test of the decoder; the bits of a valid character are or-ed in.
  method OrSymbol(c: char, tmp: nat) returns (valid: bool, t: nat)
    ensures valid <==> ValidChar(c)
    ensures valid ==> t == Or(tmp, Bits(c))
  {
    if c == '=' {
      OrZero(tmp);
      return true, tmp;
    }
    var v := SymbolValue(c);
    return v >= 0, if v >= 0 then Or(tmp, v % 64) else tmp;
  }

  lemma TextIs(source: string)
    ensures CStr(source) == source[..IndexOf(source, NUL)]
  {}

  // AuthManager::Base64Decode: a zeroed buffer of size + 3 bytes, filled three bytes per group
  // from a 32-bit accumulator; the text ends at its first NUL. `ok` is false where the original
  // returns a null pointer.
  method Base64Decode(source: string) returns (ok: bool, buf: array<byte>, size: nat)
    ensures fresh(buf) && buf.Length == (|source| * 3 + 3) / 4 + 3
    ensures ok <==> Decodable(CStr(source))
    ensures ok ==> size < buf.Length && buf[..size] == Decode(CStr(source))
    ensures ok ==> forall i :: size <= i < buf.Length ==> buf[i] == 0
  {
    hide Group, Or, Partial, SymbolValue, Decode, Progress, IndexOf, Bits, Bytes, CStr, Zeros, Decodable, ValidChar;
    ghost var text, n := CStr(source), IndexOf(source, NUL);
    TextIs(source);
    size := (|source| * 3 + 3) / 4;
    buf := new byte[size + 3](_ => 0);
    var dst, idx, tmp: nat := 0, 0, 0;
    ProgressStart(text);
    assert buf[..0] == [];
    while idx < |source| && source[idx] != NUL
      invariant idx <= n && dst == idx / 4 * 3 <= size
      invariant Progress(text, idx, tmp, buf[..dst])
      invariant forall i :: dst <= i < buf.Length ==> buf[i] == 0
    {
      assert idx < n;
      ghost var out := buf[..dst];
      var valid, t := OrSymbol(source[idx], tmp);
      if !valid {
        NotDecodable(text, idx);
        ok := false;
        return;
      }
      ProgressStep(text, idx, tmp, out);
      Room(|source|, idx);
      tmp, idx := t, idx + 1;
      if idx % 4 == 0 {
        StoreGroup(buf, dst, tmp);
        dst := dst + 3;
        tmp := 0;
      } else {
        tmp := tmp * 64 % TWO32;
      }
    }
    assert idx == n;
    if idx % 4 != 0 {
      NotWhole(text);
      ok := false;
      return;
    }
    ProgressEnd(text, tmp, buf[..dst]);
    size := dst;
    ok := true;
  }
}
