// Counting the elements of a sequence that carry a key, and summing weights.

module Counting {
  import opened CStrings

  // How many elements of s have the key v.
  ghost function Count<T>(key: T -> Option<int>, v: int, s: seq<T>): nat {
    if s == [] then 0 else One(key(s[0]), v) + Count(key, v, s[1..])
  }

  ghost function One(k: Option<int>, v: int): nat {
    if k == Some(v) then 1 else 0
  }

  lemma {:induction false} CountConcat<T>(key: T -> Option<int>, v: int, a: seq<T>, b: seq<T>)
    ensures Count(key, v, a + b) == Count(key, v, a) + Count(key, v, b)
  {
    if a == [] {
      assert a + b == b;
    } else {
      assert (a + b)[1..] == a[1..] + b;
      CountConcat(key, v, a[1..], b);
    }
  }

  lemma CountSnoc<T>(key: T -> Option<int>, v: int, s: seq<T>, x: T)
    ensures Count(key, v, s + [x]) == Count(key, v, s) + One(key(x), v)
  {
    CountConcat(key, v, s, [x]);
    assert [x][1..] == [];
  }

  lemma {:induction false} CountRemove<T>(key: T -> Option<int>, v: int, s: seq<T>, i: nat)
    requires i < |s|
    ensures Count(key, v, s) == Count(key, v, s[..i] + s[i + 1..]) + One(key(s[i]), v)
  {
    var rest := s[..i] + s[i + 1..];
    if i == 0 {
      assert rest == s[1..];
    } else {
      assert rest[1..] == s[1..][..i - 1] + s[1..][i..];
      CountRemove(key, v, s[1..], i - 1);
    }
  }

  lemma {:induction false} CountUpdate<T>(key: T -> Option<int>, v: int, s: seq<T>, i: nat, x: T)
    requires i < |s|
    ensures Count(key, v, s[i := x]) + One(key(s[i]), v) == Count(key, v, s) + One(key(x), v)
  {
    if i == 0 {
      assert s[0 := x][1..] == s[1..];
    } else {
      assert s[i := x][1..] == s[1..][i - 1 := x];
      CountUpdate(key, v, s[1..], i - 1, x);
    }
  }

  // An element is counted; two elements are counted twice.
  lemma {:induction false} CountHas<T>(key: T -> Option<int>, v: int, s: seq<T>, i: nat)
    requires i < |s| && key(s[i]) == Some(v)
    ensures Count(key, v, s) >= 1
  {
    CountRemove(key, v, s, i);
  }

  lemma CountTwo<T>(key: T -> Option<int>, v: int, s: seq<T>, i: nat, j: nat)
    requires i < j < |s| && key(s[i]) == Some(v) && key(s[j]) == Some(v)
    ensures Count(key, v, s) >= 2
  {
    CountRemove(key, v, s, i);
    var rest := s[..i] + s[i + 1..];
    assert rest[j - 1] == s[j];
    CountHas(key, v, rest, j - 1);
  }

  lemma {:induction false} CountSource<T>(key: T -> Option<int>, v: int, s: seq<T>) returns (i: nat)
    requires Count(key, v, s) > 0
    ensures i < |s| && key(s[i]) == Some(v)
  {
    if key(s[0]) == Some(v) {
      i := 0;
    } else {
      i := CountSource(key, v, s[1..]);
      i := i + 1;
    }
  }

  ghost function Sum<T>(weight: T -> nat, s: seq<T>): nat {
    if s == [] then 0 else weight(s[0]) + Sum(weight, s[1..])
  }

  lemma {:induction false} SumConcat<T>(weight: T -> nat, a: seq<T>, b: seq<T>)
    ensures Sum(weight, a + b) == Sum(weight, a) + Sum(weight, b)
  {
    if a == [] {
      assert a + b == b;
    } else {
      assert (a + b)[1..] == a[1..] + b;
      SumConcat(weight, a[1..], b);
    }
  }

  lemma SumSnoc<T>(weight: T -> nat, s: seq<T>, x: T)
    ensures Sum(weight, s + [x]) == Sum(weight, s) + weight(x)
  {
    SumConcat(weight, s, [x]);
    assert [x][1..] == [];
  }

  lemma {:induction false} SumUpdate<T>(weight: T -> nat, s: seq<T>, i: nat, x: T)
    requires i < |s|
    ensures Sum(weight, s[i := x]) + weight(s[i]) == Sum(weight, s) + weight(x)
  {
    if i == 0 {
      assert s[0 := x][1..] == s[1..];
    } else {
      assert s[i := x][1..] == s[1..][i - 1 := x];
      SumUpdate(weight, s[1..], i - 1, x);
    }
  }
}
