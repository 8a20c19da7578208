/**
 Finite sums and the relational GROUP BY.

 A query result is a finite map.  `Sum` adds up the values of a map, `GroupBy` is
 `SELECT group, SUM(value) ... GROUP BY group`, and `Roll` groups the rows of an
 earlier GROUP BY once more.
 */
module Sums {

  /** What one input row contributes to a GROUP BY: the group it falls in and its summand. */
  datatype Entry<+G> = Entry(group: G, value: int)

  ghost function Sum<K>(m: map<K, int>): int
    decreases |m|
  {
    if m == map[] then 0
    else
      var k :| k in m;
      m[k] + Sum(m - {k})
  }

  lemma SomeElement<T>(s: set<T>) returns (x: T)
    requires s != {}
    ensures x in s
  {
    x :| x in s;
  }

  lemma SomeKey<K, V>(m: map<K, V>) returns (k: K)
    requires m != map[]
    ensures k in m
  {
    k :| k in m;
  }

  lemma {:induction false} SumRemove<K>(m: map<K, int>, x: K)
    requires x in m
    ensures Sum(m) == m[x] + Sum(m - {x})
    decreases |m|
  {
    var k :| k in m && Sum(m) == m[k] + Sum(m - {k});
    if k != x {
      SumRemove(m - {k}, x);
      SumRemove(m - {x}, k);
      assert m - {k} - {x} == m - {x} - {k};
    }
  }

  lemma SumPut<K>(m: map<K, int>, x: K, v: int)
    ensures Sum(m[x := v]) == v + Sum(m - {x})
    ensures x !in m ==> Sum(m[x := v]) == v + Sum(m)
  {
    SumRemove(m[x := v], x);
    assert m[x := v] - {x} == m - {x};
    if x !in m {
      assert m - {x} == m;
    }
  }

  /** Every summand of one map below the matching summand of a non-negative larger map. */
  lemma {:induction false} SumMonotone<K>(a: map<K, int>, b: map<K, int>)
    requires forall k :: k in a ==> k in b && a[k] <= b[k]
    requires forall k :: k in b ==> 0 <= b[k]
    ensures Sum(a) <= Sum(b)
    decreases |b|
  {
    if b != map[] {
      var k :| k in b;
      SumRemove(b, k);
      if k in a {
        SumRemove(a, k);
        SumMonotone(a - {k}, b - {k});
      } else {
        SumMonotone(a, b - {k});
      }
    } else {
      assert a == map[];
    }
  }

  /** A map of ones sums to its size: COUNT(*) is SUM(1). */
  lemma {:induction false} SumOnes<K>(m: map<K, int>)
    requires forall k :: k in m ==> m[k] == 1
    ensures Sum(m) == |m|
    decreases |m|
  {
    if m != map[] {
      var k :| k in m;
      SumRemove(m, k);
      assert m == (m - {k})[k := 1];
      SumOnes(m - {k});
      assert (m - {k}).Keys == m.Keys - {k};
      assert |m| == |m.Keys| && |m - {k}| == |(m - {k}).Keys|;
    }
  }

  /** A subset is no larger, and only the whole set is as large. */
  lemma {:induction false} SubsetSize<T>(a: set<T>, b: set<T>)
    requires a <= b
    ensures |a| <= |b| && (|a| == |b| ==> a == b)
    decreases |a|
  {
    if a != {} {
      var x :| x in a;
      SubsetSize(a - {x}, b - {x});
      assert a == (a - {x}) + {x};
      assert b == (b - {x}) + {x};
    }
  }

  /** Distinct elements have distinct images: the image is as large as the set. */
  lemma {:induction false} ImageSize<A, B>(a: set<A>, f: A -> B, image: set<B>)
    requires forall x, y :: x in a && y in a && f(x) == f(y) ==> x == y
    requires forall x :: x in a ==> f(x) in image
    requires forall y :: y in image ==> exists x :: x in a && f(x) == y
    ensures |image| == |a|
    decreases |a|
  {
    if a == {} {
      assert image == {};
    } else {
      var x :| x in a;
      forall y | y in image - {f(x)} ensures exists z :: z in a - {x} && f(z) == y {
        var z :| z in a && f(z) == y;
      }
      ImageSize(a - {x}, f, image - {f(x)});
    }
  }

  /** Add v to the running value of x, starting from nothing: `acc[x] += v` on a
      defaultdict, and `INSERT ... ON CONFLICT DO UPDATE SET value = value + EXCLUDED.value`. */
  function Upsert<G>(acc: map<G, int>, x: G, v: int): map<G, int> {
    acc[x := (if x in acc then acc[x] else 0) + v]
  }

  lemma SumUpsert<G>(acc: map<G, int>, x: G, v: int)
    ensures Sum(Upsert(acc, x, v)) == Sum(acc) + v
  {
    SumPut(acc, x, (if x in acc then acc[x] else 0) + v);
    if x in acc {
      SumRemove(acc, x);
    }
  }

  ghost function Values<K, G>(m: map<K, Entry<G>>): map<K, int> {
    map k | k in m :: m[k].value
  }

  ghost function Groups<K, G>(m: map<K, Entry<G>>): set<G> {
    set k | k in m :: m[k].group
  }

  ghost function Fiber<K, G>(m: map<K, Entry<G>>, x: G): map<K, int> {
    map k | k in m && m[k].group == x :: m[k].value
  }

  /** SELECT group, SUM(value) FROM m GROUP BY group. */
  ghost function GroupBy<K, G>(m: map<K, Entry<G>>): map<G, int> {
    map x | x in Groups(m) :: Sum(Fiber(m, x))
  }

  /** GROUP BY processes its input one row at a time, in any order. */
  lemma GroupByPut<K, G>(m: map<K, Entry<G>>, k: K, e: Entry<G>)
    requires k !in m
    ensures GroupBy(m[k := e]) == Upsert(GroupBy(m), e.group, e.value)
  {
    var n := m[k := e];
    assert Groups(n) == Groups(m) + {e.group} by {
      assert n[k].group == e.group;
      forall j | j in m ensures n[j] == m[j] {}
    }
    forall x | x in Groups(n)
      ensures GroupBy(n)[x] == Upsert(GroupBy(m), e.group, e.value)[x]
    {
      if x == e.group {
        assert Fiber(n, x) == Fiber(m, x)[k := e.value];
        SumPut(Fiber(m, x), k, e.value);
        if x !in Groups(m) {
          assert Fiber(m, x) == map[];
        }
      } else {
        assert Fiber(n, x) == Fiber(m, x);
      }
    }
  }

  /** Induction over the input rows of a query. */
  lemma {:induction false} GroupByTotal<K, G>(m: map<K, Entry<G>>)
    ensures Sum(GroupBy(m)) == Sum(Values(m))
    decreases |m|
  {
    if m == map[] {
      assert GroupBy(m) == map[] && Values(m) == map[];
    } else {
      var k :| k in m;
      var rest := m - {k};
      assert m == rest[k := m[k]];
      GroupByTotal(rest);
      GroupByPut(rest, k, m[k]);
      SumUpsert(GroupBy(rest), m[k].group, m[k].value);
      assert Values(m) == Values(rest)[k := m[k].value];
      SumPut(Values(rest), k, m[k].value);
    }
  }

  /** The rows of a table regrouped by a column function h. */
  ghost function Tagged<G, H>(m: map<G, int>, h: G -> H): map<G, Entry<H>> {
    map x | x in m :: Entry(h(x), m[x])
  }

  ghost function Roll<G, H>(m: map<G, int>, h: G -> H): map<H, int> {
    GroupBy(Tagged(m, h))
  }

  ghost function Retag<K, G, H>(m: map<K, Entry<G>>, h: G -> H): map<K, Entry<H>> {
    map k | k in m :: Entry(h(m[k].group), m[k].value)
  }

  lemma UpsertCommutes<G>(m: map<G, int>, x: G, v: int, y: G, w: int)
    ensures Upsert(Upsert(m, x, v), y, w) == Upsert(Upsert(m, y, w), x, v)
  {}

  lemma RollUpsert<G, H>(m: map<G, int>, x: G, v: int, h: G -> H)
    ensures Roll(Upsert(m, x, v), h) == Upsert(Roll(m, h), h(x), v)
  {
    var base := m - {x};
    var was := if x in m then m[x] else 0;
    assert Tagged(Upsert(m, x, v), h) == Tagged(base, h)[x := Entry(h(x), was + v)];
    GroupByPut(Tagged(base, h), x, Entry(h(x), was + v));
    if x in m {
      assert Tagged(m, h) == Tagged(base, h)[x := Entry(h(x), m[x])];
      GroupByPut(Tagged(base, h), x, Entry(h(x), m[x]));
    } else {
      assert base == m;
    }
  }

  lemma RetagPut<K, G, H>(m: map<K, Entry<G>>, k: K, e: Entry<G>, h: G -> H)
    requires k !in m
    ensures GroupBy(Retag(m[k := e], h)) == Upsert(GroupBy(Retag(m, h)), h(e.group), e.value)
  {
    assert Retag(m[k := e], h) == Retag(m, h)[k := Entry(h(e.group), e.value)];
    GroupByPut(Retag(m, h), k, Entry(h(e.group), e.value));
  }

  /** Grouping the groups again is grouping the input rows by the coarser key. */
  lemma {:induction false} RollGroupBy<K, G, H>(m: map<K, Entry<G>>, h: G -> H)
    ensures Roll(GroupBy(m), h) == GroupBy(Retag(m, h))
    decreases |m|
  {
    if m == map[] {
      assert GroupBy(m) == map[] && Retag(m, h) == map[];
      assert Tagged(GroupBy(m), h) == map[];
    } else {
      var k :| k in m;
      var rest := m - {k};
      assert m == rest[k := m[k]];
      RollGroupBy(rest, h);
      GroupByPut(rest, k, m[k]);
      RollUpsert(GroupBy(rest), m[k].group, m[k].value, h);
      RetagPut(rest, k, m[k], h);
    }
  }

  /** The rows whose key satisfies p. */
  ghost function Where<G>(m: map<G, int>, p: G -> bool): map<G, int> {
    map x | x in m && p(x) :: m[x]
  }

  lemma WhereUpsert<G>(m: map<G, int>, x: G, v: int, p: G -> bool)
    ensures Where(Upsert(m, x, v), p) == if p(x) then Upsert(Where(m, p), x, v) else Where(m, p)
  {}

  /** The summands of the input rows whose group satisfies p. */
  ghost function Falling<K, G>(m: map<K, Entry<G>>, p: G -> bool): map<K, int> {
    map k | k in m && p(m[k].group) :: m[k].value
  }

  lemma FallingPut<K, G>(m: map<K, Entry<G>>, k: K, e: Entry<G>, p: G -> bool)
    requires k !in m
    ensures Sum(Falling(m[k := e], p)) == Sum(Falling(m, p)) + if p(e.group) then e.value else 0
  {
    if p(e.group) {
      assert Falling(m[k := e], p) == Falling(m, p)[k := e.value];
      SumPut(Falling(m, p), k, e.value);
    } else {
      assert Falling(m[k := e], p) == Falling(m, p);
    }
  }

  lemma GroupByWherePut<K, G>(m: map<K, Entry<G>>, k: K, e: Entry<G>, p: G -> bool)
    requires k !in m
    ensures Sum(Where(GroupBy(m[k := e]), p)) == Sum(Where(GroupBy(m), p)) + if p(e.group) then e.value else 0
  {
    GroupByPut(m, k, e);
    WhereUpsert(GroupBy(m), e.group, e.value, p);
    if p(e.group) {
      SumUpsert(Where(GroupBy(m), p), e.group, e.value);
    }
  }

  /** What a grouped table holds for the groups satisfying p is what the input rows
      falling into those groups contribute. */
  lemma {:induction false} GroupByWhere<K, G>(m: map<K, Entry<G>>, p: G -> bool)
    ensures Sum(Where(GroupBy(m), p)) == Sum(Falling(m, p))
    decreases |m|
  {
    if m == map[] {
      assert Where(GroupBy(m), p) == map[] && Falling(m, p) == map[];
    } else {
      var k :| k in m;
      var rest := m - {k};
      assert m == rest[k := m[k]];
      GroupByWhere(rest, p);
      GroupByWherePut(rest, k, m[k], p);
      FallingPut(rest, k, m[k], p);
    }
  }

  /** Selecting after a roll-up is selecting before it, when p does not look below h. */
  lemma RollWhere<G, H>(m: map<G, int>, h: G -> H, p: H -> bool, q: G -> bool)
    requires forall x :: x in m ==> (p(h(x)) <==> q(x))
    ensures Sum(Where(Roll(m, h), p)) == Sum(Where(m, q))
  {
    GroupByWhere(Tagged(m, h), p);
    assert Falling(Tagged(m, h), p) == Where(m, q);
  }

  lemma RollKeys<G, H>(m: map<G, int>, h: G -> H)
    ensures Roll(m, h).Keys == set x | x in m :: h(x)
  {
    assert Groups(Tagged(m, h)) == set x | x in m :: h(x) by {
      forall x | x in m ensures h(x) in Groups(Tagged(m, h)) {
        assert Tagged(m, h)[x].group == h(x);
      }
    }
  }

  /** The database's GROUP BY, executed: one pass over the input rows in any order. */
  method ExecuteGroupBy<K(==), G(==)>(entries: map<K, Entry<G>>) returns (groups: map<G, int>)
    ensures groups == GroupBy(entries)
  {
    groups := map[];
    var todo := entries.Keys;
    ghost var done: map<K, Entry<G>> := map[];
    while todo != {}
      invariant todo <= entries.Keys
      invariant done == map k | k in entries && k !in todo :: entries[k]
      invariant groups == GroupBy(done)
      decreases |todo|
    {
      var k :| k in todo;
      GroupByPut(done, k, entries[k]);
      groups := Upsert(groups, entries[k].group, entries[k].value);
      done := done[k := entries[k]];
      todo := todo - {k};
    }
    assert done == entries;
  }
}
