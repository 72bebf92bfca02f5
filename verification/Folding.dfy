/** Sums over sequences in any commutative monoid: parts, groups, and what may be left out. */
module Folding {

  datatype Monoid<!S> = Monoid(zero: S, plus: (S, S) -> S)

  ghost predicate Neutral<S>(m: Monoid<S>, a: S)
  {
    m.plus(a, m.zero) == a
  }

  ghost predicate Commutes<S>(m: Monoid<S>, a: S, b: S)
  {
    m.plus(a, b) == m.plus(b, a)
  }

  ghost predicate Associates<S>(m: Monoid<S>, a: S, b: S, c: S)
  {
    m.plus(m.plus(a, b), c) == m.plus(a, m.plus(b, c))
  }

  ghost predicate Lawful<S(!new)>(m: Monoid<S>)
  {
    && (forall a :: Neutral(m, a))
    && (forall a, b :: Commutes(m, a, b))
    && (forall a, b, c :: Associates(m, a, b, c))
  }

  lemma Swap<S(!new)>(m: Monoid<S>, a: S, b: S, c: S)
    requires Lawful(m)
    ensures m.plus(m.plus(a, b), c) == m.plus(m.plus(a, c), b)
  {
    assert Associates(m, a, b, c) && Commutes(m, b, c) && Associates(m, a, c, b);
  }

  function Fold<E, S>(m: Monoid<S>, share: E -> S, es: seq<E>): S
  {
    if es == [] then m.zero else m.plus(Fold(m, share, es[..|es| - 1]), share(es[|es| - 1]))
  }

  lemma FoldPush<E, S>(m: Monoid<S>, share: E -> S, es: seq<E>, e: E)
    ensures Fold(m, share, es + [e]) == m.plus(Fold(m, share, es), share(e))
  {
    assert (es + [e])[..|es|] == es;
  }

  lemma FoldOne<E, S(!new)>(m: Monoid<S>, share: E -> S, e: E)
    requires Lawful(m)
    ensures Fold(m, share, [e]) == share(e)
  {
    assert [e][..0] == [];
    assert Neutral(m, share(e)) && Commutes(m, m.zero, share(e));
  }

  // ----- Parts -----

  /** The elements p holds of, in order. */
  function Keep<E>(es: seq<E>, p: E -> bool): seq<E>
  {
    if es == [] then [] else
      var front := Keep(es[..|es| - 1], p);
      if p(es[|es| - 1]) then front + [es[|es| - 1]] else front
  }

  lemma KeepPush<E>(es: seq<E>, e: E, p: E -> bool)
    ensures Keep(es + [e], p) == if p(e) then Keep(es, p) + [e] else Keep(es, p)
  {
    assert (es + [e])[..|es|] == es;
  }

  lemma {:induction false} KeepNone<E>(es: seq<E>, p: E -> bool)
    requires forall i :: 0 <= i < |es| ==> !p(es[i])
    ensures Keep(es, p) == []
  {
    if es != [] { KeepNone(es[..|es| - 1], p); }
  }

  /** What is kept is every occurrence of every element wanted, and no other. */
  lemma {:induction false} KeepExact<E>(es: seq<E>, p: E -> bool, e: E)
    ensures multiset(Keep(es, p))[e] == if p(e) then multiset(es)[e] else 0
  {
    if es != [] {
      var n := |es| - 1;
      KeepExact(es[..n], p, e);
      assert es == es[..n] + [es[n]];
    }
  }

  lemma {:induction false} KeepSame<E>(es: seq<E>, p: E -> bool, q: E -> bool)
    requires forall i :: 0 <= i < |es| ==> p(es[i]) == q(es[i])
    ensures Keep(es, p) == Keep(es, q)
  {
    if es != [] { KeepSame(es[..|es| - 1], p, q); }
  }

  lemma {:induction false} KeepMembers<E>(es: seq<E>, p: E -> bool, q: E -> bool)
    requires forall i :: 0 <= i < |es| && p(es[i]) ==> q(es[i])
    ensures forall i :: 0 <= i < |Keep(es, p)| ==> q(Keep(es, p)[i])
  {
    if es != [] { KeepMembers(es[..|es| - 1], p, q); }
  }

  lemma {:induction false} KeepAndKeep<E>(es: seq<E>, p: E -> bool, q: E -> bool, r: E -> bool)
    requires forall i :: 0 <= i < |es| ==> r(es[i]) == (p(es[i]) && q(es[i]))
    ensures Keep(Keep(es, p), q) == Keep(es, r)
  {
    if es != [] {
      KeepAndKeep(es[..|es| - 1], p, q, r);
      KeepPush(Keep(es[..|es| - 1], p), es[|es| - 1], q);
    }
  }

  /** Two complementary parts sum to the whole. */
  lemma {:induction false} FoldSplit<E, S(!new)>(m: Monoid<S>, share: E -> S, es: seq<E>, p: E -> bool, q: E -> bool)
    requires Lawful(m) && forall i :: 0 <= i < |es| ==> p(es[i]) == !q(es[i])
    ensures Fold(m, share, es) == m.plus(Fold(m, share, Keep(es, p)), Fold(m, share, Keep(es, q)))
  {
    if es == [] {
      assert Neutral(m, m.zero);
    } else {
      var front, e := es[..|es| - 1], es[|es| - 1];
      FoldSplit(m, share, front, p, q);
      var a, b := Fold(m, share, Keep(front, p)), Fold(m, share, Keep(front, q));
      if p(e) {
        FoldPush(m, share, Keep(front, p), e);
        Swap(m, a, b, share(e));
      } else {
        FoldPush(m, share, Keep(front, q), e);
        assert Associates(m, a, b, share(e));
      }
    }
  }

  /** Elements that contribute nothing may be left out. */
  lemma {:induction false} FoldWithout<E, S(!new)>(m: Monoid<S>, share: E -> S, es: seq<E>, p: E -> bool)
    requires Lawful(m) && forall i :: 0 <= i < |es| && !p(es[i]) ==> share(es[i]) == m.zero
    ensures Fold(m, share, Keep(es, p)) == Fold(m, share, es)
  {
    if es != [] {
      var front, e := es[..|es| - 1], es[|es| - 1];
      FoldWithout(m, share, front, p);
      FoldPush(m, share, Keep(front, p), e);
      assert Neutral(m, Fold(m, share, front));
    }
  }

  // ----- Groups -----

  function Part<E, K(==), S>(m: Monoid<S>, share: E -> S, es: seq<E>, key: E -> K, k: K): S
  {
    Fold(m, share, Keep(es, HasKey(key, k)))
  }

  function HasKey<E, K(==)>(key: E -> K, k: K): E -> bool
  {
    e => key(e) == k
  }

  /** The sum over each key's elements, key by key. */
  function ByKey<E, K(==), S>(m: Monoid<S>, share: E -> S, es: seq<E>, key: E -> K, keys: seq<K>): S
  {
    if keys == [] then m.zero
    else m.plus(ByKey(m, share, es, key, keys[..|keys| - 1]), Part(m, share, es, key, keys[|keys| - 1]))
  }

  predicate Distinct<K(==)>(keys: seq<K>)
  {
    forall i, j :: 0 <= i < j < |keys| ==> keys[i] != keys[j]
  }

  lemma PartPush<E, K, S(!new)>(m: Monoid<S>, share: E -> S, es: seq<E>, e: E, key: E -> K, k: K)
    ensures Part(m, share, es + [e], key, k) ==
      if key(e) == k then m.plus(Part(m, share, es, key, k), share(e)) else Part(m, share, es, key, k)
  {
    var p := HasKey(key, k);
    KeepPush(es, e, p);
    FoldPush(m, share, Keep(es, p), e);
  }

  lemma {:induction false} ByKeyPush<E, K, S(!new)>(m: Monoid<S>, share: E -> S, es: seq<E>, e: E, key: E -> K, keys: seq<K>)
    requires Lawful(m) && Distinct(keys)
    ensures ByKey(m, share, es + [e], key, keys) ==
      if key(e) in keys then m.plus(ByKey(m, share, es, key, keys), share(e)) else ByKey(m, share, es, key, keys)
  {
    if keys != [] {
      var front, k := keys[..|keys| - 1], keys[|keys| - 1];
      ByKeyPush(m, share, es, e, key, front);
      PartPush(m, share, es, e, key, k);
      assert keys == front + [k];
      var a, b := ByKey(m, share, es, key, front), Part(m, share, es, key, k);
      if key(e) == k {
        assert key(e) !in front;
        assert Associates(m, a, b, share(e));
      } else if key(e) in front {
        Swap(m, a, b, share(e));
      }
    }
  }

  lemma {:induction false} ByKeyEmpty<E, K, S(!new)>(m: Monoid<S>, share: E -> S, key: E -> K, keys: seq<K>)
    requires Lawful(m)
    ensures ByKey(m, share, [], key, keys) == m.zero
  {
    if keys != [] {
      ByKeyEmpty(m, share, key, keys[..|keys| - 1]);
      assert Neutral(m, m.zero);
    }
  }

  /** Grouping by any key loses and doubles nothing. */
  lemma {:induction false} PartitionSum<E, K, S(!new)>(m: Monoid<S>, share: E -> S, es: seq<E>, key: E -> K, keys: seq<K>)
    requires Lawful(m) && Distinct(keys) && forall i :: 0 <= i < |es| ==> key(es[i]) in keys
    ensures ByKey(m, share, es, key, keys) == Fold(m, share, es)
  {
    if es == [] {
      ByKeyEmpty(m, share, key, keys);
    } else {
      var front, e := es[..|es| - 1], es[|es| - 1];
      PartitionSum(m, share, front, key, keys);
      ByKeyPush(m, share, front, e, key, keys);
      assert front + [e] == es;
    }
  }

  // ----- Buckets -----

  /** One bucket a key, each holding the sum of exactly its elements; order lists the keys. */
  ghost predicate AreBuckets<E, K(!new), S>(m: Monoid<S>, share: E -> S, es: seq<E>, key: E -> K, order: seq<K>, buckets: map<K, S>)
  {
    && Distinct(order) && (forall k :: k in order <==> k in buckets)
    && (forall k :: k in buckets ==> buckets[k] == Part(m, share, es, key, k))
    && (forall j :: 0 <= j < |es| ==> key(es[j]) in buckets)
  }

  lemma BucketsPush<E, K(!new), S(!new)>(m: Monoid<S>, share: E -> S, es: seq<E>, e: E, key: E -> K, order: seq<K>, buckets: map<K, S>)
    requires AreBuckets(m, share, es, key, order, buckets)
    ensures var sum := m.plus(if key(e) in buckets then buckets[key(e)] else m.zero, share(e));
      AreBuckets(m, share, es + [e], key, if key(e) in buckets then order else order + [key(e)], buckets[key(e) := sum])
  {
    var sum := m.plus(if key(e) in buckets then buckets[key(e)] else m.zero, share(e));
    forall k | k in buckets[key(e) := sum]
      ensures buckets[key(e) := sum][k] == Part(m, share, es + [e], key, k)
    {
      PartPush(m, share, es, e, key, k);
      if k !in buckets {
        KeepNone(es, HasKey(key, k));
        assert Part(m, share, es, key, k) == m.zero;
      }
    }
  }

  function Total<S>(m: Monoid<S>, sums: seq<S>): S
  {
    if sums == [] then m.zero else m.plus(Total(m, sums[..|sums| - 1]), sums[|sums| - 1])
  }

  lemma {:induction false} TotalOfParts<E, K, S(!new)>(m: Monoid<S>, share: E -> S, es: seq<E>, key: E -> K, keys: seq<K>, sums: seq<S>)
    requires |sums| == |keys| && forall i :: 0 <= i < |keys| ==> sums[i] == Part(m, share, es, key, keys[i])
    ensures Total(m, sums) == ByKey(m, share, es, key, keys)
  {
    if keys != [] { TotalOfParts(m, share, es, key, keys[..|keys| - 1], sums[..|sums| - 1]); }
  }

  /** A share that counts the elements of one key only sums up that key's part. */
  lemma {:induction false} FoldIsPart<E, K, S(!new)>(m: Monoid<S>, share: E -> S, only: E -> S, es: seq<E>, key: E -> K, k: K)
    requires Lawful(m) && forall i :: 0 <= i < |es| ==> only(es[i]) == if key(es[i]) == k then share(es[i]) else m.zero
    ensures Fold(m, only, es) == Part(m, share, es, key, k)
  {
    if es != [] {
      var front, last := es[..|es| - 1], es[|es| - 1];
      FoldIsPart(m, share, only, front, key, k);
      PartPush(m, share, front, last, key, k);
      FoldPush(m, only, front, last);
      assert front + [last] == es;
      assert only(last) == if key(last) == k then share(last) else m.zero;
      assert Neutral(m, Fold(m, only, front));
    }
  }

  // ----- Figures of a sum -----

  function Amount<E>(es: seq<E>, w: E -> int): int
  {
    if es == [] then 0 else Amount(es[..|es| - 1], w) + w(es[|es| - 1])
  }

  predicate AddsUpAt<S>(m: Monoid<S>, figure: S -> int, a: S, b: S)
  {
    figure(m.plus(a, b)) == figure(a) + figure(b)
  }

  /** The figure of a sum is the sum of the figures. */
  ghost predicate AddsUp<S(!new)>(m: Monoid<S>, figure: S -> int)
  {
    figure(m.zero) == 0 && forall a, b {:trigger AddsUpAt(m, figure, a, b)} :: AddsUpAt(m, figure, a, b)
  }

  predicate Weighs<E, S>(figure: S -> int, share: E -> S, w: E -> int, e: E)
  {
    figure(share(e)) == w(e)
  }

  /** A figure of what is folded is the amount of what each element adds to it. */
  lemma {:induction false} FigureIsAmount<E, S(!new)>(m: Monoid<S>, share: E -> S, es: seq<E>, figure: S -> int, w: E -> int)
    requires AddsUp(m, figure) && forall i :: 0 <= i < |es| ==> Weighs(figure, share, w, es[i])
    ensures figure(Fold(m, share, es)) == Amount(es, w)
  {
    if es != [] {
      var front, last := es[..|es| - 1], es[|es| - 1];
      FigureIsAmount(m, share, front, figure, w);
      FoldPush(m, share, front, last);
      assert front + [last] == es;
      assert AddsUpAt(m, figure, Fold(m, share, front), share(last)) && Weighs(figure, share, w, last);
    }
  }
}
