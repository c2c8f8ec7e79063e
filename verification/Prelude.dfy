/** Small shared vocabulary: optional values, counting of sequence entries by key, bags and division. */
module Prelude {
  datatype Option<+T> = None | Some(value: T)

  function Min(a: int, b: int): int { if a <= b then a else b }
  function Max(a: int, b: int): int { if a >= b then a else b }

  /** How many entries of `s` carry the key `i`. */
  function Tally<T>(s: seq<T>, key: T -> int, i: int): nat {
    if s == [] then 0 else (if key(s[0]) == i then 1 else 0) + Tally(s[1..], key, i)
  }

  lemma {:induction false} TallyConcat<T>(s: seq<T>, t: seq<T>, key: T -> int, i: int)
    ensures Tally(s + t, key, i) == Tally(s, key, i) + Tally(t, key, i)
  {
    if s == [] {
      assert s + t == t;
    } else {
      assert (s + t)[1..] == s[1..] + t;
      TallyConcat(s[1..], t, key, i);
    }
  }

  lemma TallyAppend<T>(s: seq<T>, x: T, key: T -> int, i: int)
    ensures Tally(s + [x], key, i) == Tally(s, key, i) + if key(x) == i then 1 else 0
  {
    TallyConcat(s, [x], key, i);
    assert [x][1..] == [];
  }

  lemma TallyInsert<T>(s: seq<T>, k: nat, x: T, key: T -> int, i: int)
    requires k <= |s|
    ensures Tally(s[..k] + [x] + s[k..], key, i) == Tally(s, key, i) + if key(x) == i then 1 else 0
  {
    TallyAppend(s[..k], x, key, i);
    TallyConcat(s[..k] + [x], s[k..], key, i);
    TallyConcat(s[..k], s[k..], key, i);
    assert s[..k] + s[k..] == s;
  }

  lemma TallyRemove<T>(s: seq<T>, k: nat, key: T -> int, i: int)
    requires k < |s|
    ensures Tally(s[..k] + s[k + 1..], key, i) == Tally(s, key, i) - if key(s[k]) == i then 1 else 0
  {
    var rest := s[..k] + s[k + 1..];
    TallyInsert(rest, k, s[k], key, i);
    assert rest[..k] + [s[k]] + rest[k..] == s;
  }

  lemma TallyUpdate<T>(s: seq<T>, k: nat, x: T, key: T -> int, i: int)
    requires k < |s|
    ensures Tally(s[k := x], key, i)
         == Tally(s, key, i) + (if key(x) == i then 1 else 0) - if key(s[k]) == i then 1 else 0
  {
    var rest := s[..k] + s[k + 1..];
    TallyInsert(rest, k, s[k], key, i);
    TallyInsert(rest, k, x, key, i);
    assert rest[..k] + [s[k]] + rest[k..] == s;
    assert rest[..k] + [x] + rest[k..] == s[k := x];
  }

  lemma {:induction false} TallyPositive<T>(s: seq<T>, k: nat, key: T -> int, i: int)
    requires k < |s| && key(s[k]) == i
    ensures Tally(s, key, i) >= 1
  {
    TallyRemove(s, k, key, i);
  }

  lemma {:induction false} TallyWitness<T>(s: seq<T>, key: T -> int, i: int) returns (k: nat)
    requires Tally(s, key, i) >= 1
    ensures k < |s| && key(s[k]) == i
  {
    if key(s[0]) == i {
      k := 0;
    } else {
      var j := TallyWitness(s[1..], key, i);
      k := j + 1;
    }
  }

  lemma {:induction false} TallyTwo<T>(s: seq<T>, j: nat, k: nat, key: T -> int, i: int)
    requires j < k < |s| && key(s[j]) == i && key(s[k]) == i
    ensures Tally(s, key, i) >= 2
  {
    TallyRemove(s, j, key, i);
    var rest := s[..j] + s[j + 1..];
    assert rest[k - 1] == s[k];
    TallyPositive(rest, k - 1, key, i);
  }

  // ---- bags ----------------------------------------------------------------------------------

  /** Where the first entry of `a` stands in a sequence with the same entries; both stay so without it. */
  lemma TakeOut<T>(a: seq<T>, b: seq<T>) returns (k: nat)
    requires a != [] && multiset(a) == multiset(b)
    ensures k < |b| && b[k] == a[0]
    ensures multiset(a[..0] + a[0 + 1..]) == multiset(b[..k] + b[k + 1..])
  {
    assert a[0] in multiset(b);
    k := IndexOf(b, a[0]);
    WithoutOne(a, 0);
    WithoutOne(b, k);
  }

  lemma IndexOf<T>(s: seq<T>, x: T) returns (k: nat)
    requires x in s
    ensures k < |s| && s[k] == x
  {
    var j :| 0 <= j < |s| && s[j] == x;
    k := j;
  }

  lemma WithoutOne<T>(s: seq<T>, k: nat)
    requires k < |s|
    ensures multiset(s[..k] + s[k + 1..]) == multiset(s) - multiset{s[k]}
  {
    assert s == s[..k] + [s[k]] + s[k + 1..];
  }

  // ---- division ------------------------------------------------------------------------------

  /** Quotient and remainder are what they are. */
  lemma DivModUnique(x: int, n: int, q: int, r: int)
    requires n > 0 && x == n * q + r && 0 <= r < n
    ensures x / n == q && x % n == r
  {
    var q', r' := x / n, x % n;
    assert n * q' + r' == x;
    if q < q' {
      MulLeft(n, q + 1, q');
    } else if q' < q {
      MulLeft(n, q' + 1, q);
    }
  }

  lemma MulLeft(n: int, a: int, b: int)
    requires n >= 0 && a <= b
    ensures n * a <= n * b
  {
  }
}
