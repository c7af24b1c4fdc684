/** A JavaScript object used as a counter (`acc[k] = (acc[k] || 0) + 1`),
    modelled as its own entries in insertion order. Every key the code uses
    is a non-numeric string, so the object's enumeration order is the order
    in which keys were first assigned. */
module Tally {
  import opened Seqs

  type Counts<K> = seq<(K, nat)>

  /** `Object.keys(c)`. */
  function Keys<K>(c: Counts<K>): (ks: seq<K>)
    ensures |ks| == |c|
    ensures forall i :: 0 <= i < |c| ==> ks[i] == c[i].0
  {
    seq(|c|, i requires 0 <= i < |c| => c[i].0)
  }

  /** An object has each key once. */
  predicate DistinctKeys<K(==)>(c: Counts<K>) {
    forall i, j :: 0 <= i < j < |c| ==> c[i].0 != c[j].0
  }

  /** `c[k] || 0`. */
  function Get<K(==)>(c: Counts<K>, k: K): nat {
    if c == [] then 0 else if c[0].0 == k then c[0].1 else Get(c[1..], k)
  }

  /** The sum of the counts. */
  function Total<K>(c: Counts<K>): nat {
    if c == [] then 0 else c[0].1 + Total(c[1..])
  }

  /** `c[k] = (c[k] || 0) + 1`: an existing key is incremented where it
      stands, a new key is appended with count 1. */
  function Bump<K(==)>(c: Counts<K>, k: K): Counts<K> {
    if c == [] then [(k, 1)]
    else if c[0].0 == k then [(k, c[0].1 + 1)] + c[1..]
    else [c[0]] + Bump(c[1..], k)
  }

  /** Bumping `k` adds one to `k`'s count and leaves every other count alone. */
  lemma {:induction false} BumpGet<K>(c: Counts<K>, k: K, j: K)
    ensures Get(Bump(c, k), j) == Get(c, j) + (if j == k then 1 else 0)
  {
    if c != [] && c[0].0 != k {
      BumpGet(c[1..], k, j);
    }
  }

  lemma {:induction false} BumpTotal<K>(c: Counts<K>, k: K)
    ensures Total(Bump(c, k)) == Total(c) + 1
  {
    if c != [] && c[0].0 != k {
      BumpTotal(c[1..], k);
      assert Bump(c, k)[1..] == Bump(c[1..], k);
    } else if c != [] {
      assert Bump(c, k)[1..] == c[1..];
    }
  }

  /** The keys keep their order; a new key goes last. */
  lemma {:induction false} BumpKeys<K>(c: Counts<K>, k: K)
    ensures Keys(Bump(c, k)) == if k in Keys(c) then Keys(c) else Keys(c) + [k]
  {
    if c == [] {
    } else if c[0].0 == k {
      assert Keys(c)[0] == k;
      assert Keys(Bump(c, k)) == Keys(c);
    } else {
      var rest := Bump(c[1..], k);
      BumpKeys(c[1..], k);
      assert Keys(c) == [c[0].0] + Keys(c[1..]);
      assert Keys(Bump(c, k)) == [c[0].0] + Keys(rest);
      assert k in Keys(c) <==> k in Keys(c[1..]);
    }
  }

  lemma BumpDistinct<K>(c: Counts<K>, k: K)
    requires DistinctKeys(c)
    ensures DistinctKeys(Bump(c, k))
  {
    BumpKeys(c, k);
    var r := Bump(c, k);
    forall i, j | 0 <= i < j < |r| ensures r[i].0 != r[j].0 {
      assert Keys(r)[i] == r[i].0 && Keys(r)[j] == r[j].0;
      if k !in Keys(c) && j == |c| {
        assert Keys(c)[i] == c[i].0;
      } else {
        assert Keys(c)[i] == c[i].0 && Keys(c)[j] == c[j].0;
      }
    }
  }

  /** Folding a list into a counter: `s.reduce((acc, x) => bump key(x), init)`. */
  function TallyFrom<T, K(==)>(init: Counts<K>, s: seq<T>, key: T -> K): Counts<K>
    decreases |s|
  {
    if s == [] then init else Bump(TallyFrom(init, s[..|s| - 1], key), key(s[|s| - 1]))
  }

  function KeyIs<T, K(==)>(key: T -> K, k: K): T -> bool {
    x => key(x) == k
  }

  /** The number of elements of `s` whose key is `k`. */
  function CountOf<T, K(==)>(s: seq<T>, key: T -> K, k: K): nat {
    |Filter(s, KeyIs(key, k))|
  }

  lemma CountOfSnoc<T, K>(s: seq<T>, x: T, key: T -> K, k: K)
    ensures CountOf(s + [x], key, k) == CountOf(s, key, k) + (if key(x) == k then 1 else 0)
  {
    FilterAppend(s, [x], KeyIs(key, k));
  }

  /** Each key's count in the fold is its starting count plus the number of
      elements with that key. */
  lemma {:induction false} TallyGet<T, K>(init: Counts<K>, s: seq<T>, key: T -> K, k: K)
    ensures Get(TallyFrom(init, s, key), k) == Get(init, k) + CountOf(s, key, k)
    decreases |s|
  {
    if s != [] {
      var n := |s| - 1;
      TallyGet(init, s[..n], key, k);
      BumpGet(TallyFrom(init, s[..n], key), key(s[n]), k);
      CountOfSnoc(s[..n], s[n], key, k);
      assert s[..n] + [s[n]] == s;
    }
  }

  /** The fold adds one to the total per element. */
  lemma {:induction false} TallyTotal<T, K>(init: Counts<K>, s: seq<T>, key: T -> K)
    ensures Total(TallyFrom(init, s, key)) == Total(init) + |s|
    decreases |s|
  {
    if s != [] {
      var n := |s| - 1;
      TallyTotal(init, s[..n], key);
      BumpTotal(TallyFrom(init, s[..n], key), key(s[n]));
    }
  }

  /** The fold keeps the starting keys and adds exactly the keys of the
      elements, and keeps keys distinct. */
  lemma {:induction false} TallyKeys<T, K>(init: Counts<K>, s: seq<T>, key: T -> K)
    ensures forall k :: k in Keys(TallyFrom(init, s, key)) <==> k in Keys(init) || CountOf(s, key, k) > 0
    ensures DistinctKeys(init) ==> DistinctKeys(TallyFrom(init, s, key))
    decreases |s|
  {
    if s != [] {
      var n := |s| - 1;
      var prev := TallyFrom(init, s[..n], key);
      TallyKeys(init, s[..n], key);
      BumpKeys(prev, key(s[n]));
      assert s[..n] + [s[n]] == s;
      forall k ensures CountOf(s, key, k) == CountOf(s[..n], key, k) + (if key(s[n]) == k then 1 else 0) {
        CountOfSnoc(s[..n], s[n], key, k);
      }
      if DistinctKeys(init) {
        BumpDistinct(prev, key(s[n]));
      }
    }
  }

  /** A counter started empty has a key exactly for the keys that occur, and
      each key's count is its number of occurrences. */
  lemma TallyFromEmpty<T, K>(s: seq<T>, key: T -> K)
    ensures DistinctKeys(TallyFrom([], s, key))
    ensures Total(TallyFrom([], s, key)) == |s|
    ensures forall k :: k in Keys(TallyFrom([], s, key)) <==> CountOf(s, key, k) > 0
    ensures forall k :: Get(TallyFrom([], s, key), k) == CountOf(s, key, k)
    ensures s == [] ==> TallyFrom([], s, key) == []
  {
    TallyKeys([], s, key);
    TallyTotal([], s, key);
    forall k ensures Get(TallyFrom([], s, key), k) == CountOf(s, key, k) {
      TallyGet([], s, key, k);
    }
  }

  /** When every element's key is already present, the fold changes counts
      only: the keys stay the starting keys in their order. */
  lemma {:induction false} TallyFixedKeys<T, K>(init: Counts<K>, s: seq<T>, key: T -> K)
    requires forall i :: 0 <= i < |s| ==> key(s[i]) in Keys(init)
    ensures Keys(TallyFrom(init, s, key)) == Keys(init)
    decreases |s|
  {
    if s != [] {
      var n := |s| - 1;
      TallyFixedKeys(init, s[..n], key);
      BumpKeys(TallyFrom(init, s[..n], key), key(s[n]));
    }
  }
}
