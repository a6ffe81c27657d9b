// Unsigned 64-bit words, whose sums wrap around, and bytes.

module Words {
  type byte = b: int | 0 <= b < 256

  const WORD: nat := 0x1_0000_0000_0000_0000

  // The largest count that read() and write() take: the largest signed word.
  const SSIZE_MAX: nat := WORD / 2 - 1

  type Word = n: nat | n < WORD

  function Add(a: nat, b: nat): Word {
    (a + b) % WORD
  }

  lemma AddAdd(a: nat, b: nat, c: nat)
    ensures Add(Add(a, b), c) == (a + b + c) % WORD
    ensures Add(c, Add(a, b)) == (a + b + c) % WORD
  {
    var q := (a + b) / WORD;
    assert a + b == q * WORD + Add(a, b);
    Multiple(Add(a, b) + c, q);
  }

  lemma AddMore(a: nat, b: nat, c: nat)
    ensures Add(Add(a, b), c) == Add(a, b + c)
  {
    AddAdd(a, b, c);
    assert a + (b + c) == a + b + c;
  }

  lemma AddAssociates(a: nat, b: nat, c: nat)
    ensures Add(Add(a, b), c) == Add(a, Add(b, c))
  {
    hide Add;
    AddAdd(a, b, c);
    AddAdd(b, c, a);
    assert a + b + c == b + c + a;
  }

  lemma {:induction false} Multiple(a: nat, q: nat)
    ensures (q * WORD + a) % WORD == a % WORD
    decreases q
  {
    if q > 0 {
      Multiple(a, q - 1);
      assert q * WORD + a == WORD + ((q - 1) * WORD + a);
    }
  }

  // Adding the largest word takes one away.
  lemma OneLess(a: nat)
    ensures Add(a, WORD - 1) != a % WORD
    ensures Add(Add(a, WORD - 1), 1) == a % WORD
  {
    AddAdd(a, WORD - 1, 1);
    Multiple(a, 1);
  }
}
