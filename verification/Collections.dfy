/** Sequence, multiset and map facts shared by the other modules. */
module Collections {

  /** Concatenation of a sequence of sequences. */
  function Flatten<T>(ss: seq<seq<T>>): seq<T> {
    if ss == [] then [] else Flatten(ss[..|ss| - 1]) + ss[|ss| - 1]
  }

  lemma FlattenSnoc<T>(ss: seq<seq<T>>, s: seq<T>)
    ensures Flatten(ss + [s]) == Flatten(ss) + s
  {
    assert (ss + [s])[..|ss|] == ss;
  }

  lemma {:induction false} FlattenConcat<T>(a: seq<seq<T>>, b: seq<seq<T>>)
    ensures Flatten(a + b) == Flatten(a) + Flatten(b)
  {
    if b == [] {
      assert a + b == a;
    } else {
      var n := |b| - 1;
      FlattenConcat(a, b[..n]);
      FlattenSnoc(a + b[..n], b[n]);
      assert a + b == a + b[..n] + [b[n]];
    }
  }

  lemma ConcatAssoc<T>(a: seq<T>, b: seq<T>, c: seq<T>)
    ensures (a + b) + c == a + (b + c)
  {
  }

  lemma PrefixSnoc<T>(a: seq<T>, s: seq<T>, j: nat)
    requires j < |s|
    ensures a + s[..j + 1] == a + s[..j] + [s[j]]
  {
  }

  lemma WholePrefix<T>(s: seq<T>)
    ensures s[..|s|] == s
  {
  }

  /** The concatenation of what f makes of every element. */
  function FlatMap<A, B>(f: A -> seq<B>, s: seq<A>): seq<B> {
    if s == [] then [] else FlatMap(f, s[..|s| - 1]) + f(s[|s| - 1])
  }

  lemma FlatMapSnoc<A, B>(f: A -> seq<B>, s: seq<A>, x: A)
    ensures FlatMap(f, s + [x]) == FlatMap(f, s) + f(x)
  {
    assert (s + [x])[..|s|] == s;
  }

  lemma {:induction false} FlatMapConcat<A, B>(f: A -> seq<B>, a: seq<A>, b: seq<A>)
    ensures FlatMap(f, a + b) == FlatMap(f, a) + FlatMap(f, b)
  {
    if b == [] {
      assert a + b == a;
    } else {
      FlatMapConcat(f, a, b[..|b| - 1]);
      assert (a + b)[..|a + b| - 1] == a + b[..|b| - 1];
    }
  }

  /** The elements of s that satisfy p, in order. */
  function Filter<T>(p: T -> bool, s: seq<T>): seq<T> {
    if s == [] then []
    else
      var n := |s| - 1;
      Filter(p, s[..n]) + (if p(s[n]) then [s[n]] else [])
  }

  lemma FilterSnoc<T>(p: T -> bool, s: seq<T>, x: T)
    ensures Filter(p, s + [x]) == Filter(p, s) + (if p(x) then [x] else [])
  {
    assert (s + [x])[..|s|] == s;
  }

  lemma {:induction false} FilterMembers<T>(p: T -> bool, s: seq<T>)
    ensures forall x :: x in Filter(p, s) <==> x in s && p(x)
  {
    if s != [] {
      var n := |s| - 1;
      FilterMembers(p, s[..n]);
      assert s == s[..n] + [s[n]];
    }
  }

  lemma {:induction false} FilterConcat<T>(p: T -> bool, a: seq<T>, b: seq<T>)
    ensures Filter(p, a + b) == Filter(p, a) + Filter(p, b)
  {
    if b == [] {
      assert a + b == a;
    } else {
      var n := |b| - 1;
      FilterConcat(p, a, b[..n]);
      assert (a + b)[..|a + b| - 1] == a + b[..n];
    }
  }

  lemma {:induction false} FilterSplit<T>(p: T -> bool, s: seq<T>, k: nat)
    requires k < |s|
    ensures Filter(p, s) == Filter(p, s[..k]) + (if p(s[k]) then [s[k]] else []) + Filter(p, s[k + 1..])
  {
    var n := |s| - 1;
    if k < n {
      FilterSplit(p, s[..n], k);
      assert s[..n][..k] == s[..k];
      assert s[..n][k + 1..] == s[k + 1..][..n - k - 1];
    }
  }

  /** Rearranging the input rearranges what a filter keeps. */
  lemma {:induction false} FilterPermutes<T>(p: T -> bool, a: seq<T>, b: seq<T>)
    requires multiset(a) == multiset(b)
    ensures multiset(Filter(p, a)) == multiset(Filter(p, b))
    decreases |a|
  {
    SamePermutationLength(a, b);
    if a != [] {
      var n := |a| - 1;
      var k := PermutedIndex(a, b);
      var rest := b[..k] + b[k + 1..];
      FilterPermutes(p, a[..n], rest);
      FilterConcat(p, b[..k], b[k + 1..]);
      FilterSplit(p, b, k);
    }
  }

  lemma {:induction false} FilterSame<T>(p: T -> bool, q: T -> bool, s: seq<T>)
    requires forall x :: p(x) == q(x)
    ensures Filter(p, s) == Filter(q, s)
  {
    if s != [] {
      FilterSame(p, q, s[..|s| - 1]);
    }
  }

  function Both<T>(p: T -> bool, q: T -> bool): T -> bool {
    (x: T) => p(x) && q(x)
  }

  lemma {:induction false} FilterTwice<T>(p: T -> bool, q: T -> bool, s: seq<T>)
    ensures Filter(q, Filter(p, s)) == Filter(Both(p, q), s)
  {
    if s != [] {
      var n := |s| - 1;
      FilterTwice(p, q, s[..n]);
      FilterSnoc(q, Filter(p, s[..n]), s[n]);
      assert Filter(p, s[..n]) + [] == Filter(p, s[..n]);
    }
  }

  /** How much a filter keeps. */
  lemma {:induction false} FilterCount<T>(p: T -> bool, s: seq<T>)
    ensures |Filter(p, s)| == |set i | 0 <= i < |s| && p(s[i])|
  {
    if s != [] {
      FilterCount(p, s[..|s| - 1]);
      PlacesGrow(p, s);
    }
  }

  /** The same for a set given as all places whose elements satisfy p. */
  lemma PlacesCount<T>(p: T -> bool, s: seq<T>, places: set<int>)
    requires forall i :: i in places <==> 0 <= i < |s| && p(s[i])
    ensures |Filter(p, s)| == |places|
  {
    FilterCount(p, s);
    assert places == set i | 0 <= i < |s| && p(s[i]);
  }

  lemma PlacesGrow<T>(p: T -> bool, s: seq<T>)
    requires s != []
    ensures var n := |s| - 1;
            |set i | 0 <= i < |s| && p(s[i])| == |set i | 0 <= i < n && p(s[..n][i])| + (if p(s[n]) then 1 else 0)
  {
    var n := |s| - 1;
    var before := set i | 0 <= i < n && p(s[..n][i]);
    assert (set i | 0 <= i < |s| && p(s[i])) == if p(s[n]) then before + {n} else before;
  }

  lemma SamePermutationLength<T>(a: seq<T>, b: seq<T>)
    requires multiset(a) == multiset(b)
    ensures |a| == |b|
  {
    assert |multiset(a)| == |a| && |multiset(b)| == |b|;
  }

  lemma SameMembers<T>(a: seq<T>, b: seq<T>)
    requires multiset(a) == multiset(b)
    ensures forall x :: x in a <==> x in b
  {
    forall x ensures x in a <==> x in b {
      assert x in a <==> x in multiset(a);
      assert x in b <==> x in multiset(b);
    }
  }

  lemma DropLast<T>(s: seq<T>)
    requires s != []
    ensures multiset(s) == multiset(s[..|s| - 1]) + multiset{s[|s| - 1]}
  {
    assert s == s[..|s| - 1] + [s[|s| - 1]];
  }

  lemma PrefixesPermute<T>(a: seq<T>, b: seq<T>)
    requires a != [] && b != [] && multiset(a) == multiset(b) && a[|a| - 1] == b[|b| - 1]
    ensures multiset(a[..|a| - 1]) == multiset(b[..|b| - 1])
  {
    DropLast(a);
    DropLast(b);
    assert multiset(a[..|a| - 1]) == multiset(a) - multiset{a[|a| - 1]};
    assert multiset(b[..|b| - 1]) == multiset(b) - multiset{b[|b| - 1]};
  }

  lemma RemoveAt<T>(s: seq<T>, k: nat)
    requires k < |s|
    ensures multiset(s) == multiset(s[..k] + s[k + 1..]) + multiset{s[k]}
  {
    assert s == s[..k] + [s[k]] + s[k + 1..];
  }

  /** Where the last element of a sits in a rearrangement b of a. */
  lemma PermutedIndex<T>(a: seq<T>, b: seq<T>) returns (k: nat)
    requires a != [] && multiset(a) == multiset(b)
    ensures k < |b| && b[k] == a[|a| - 1]
    ensures multiset(a[..|a| - 1]) == multiset(b[..k] + b[k + 1..])
  {
    var n := |a| - 1;
    DropLast(a);
    assert a[n] in multiset(b);
    k :| 0 <= k < |b| && b[k] == a[n];
    RemoveAt(b, k);
    assert multiset(a[..n]) == multiset(a) - multiset{a[n]};
    assert multiset(b[..k] + b[k + 1..]) == multiset(b) - multiset{b[k]};
  }

  ghost predicate NoDup<T>(s: seq<T>) {
    forall i, j :: 0 <= i < j < |s| ==> s[i] != s[j]
  }

  function WithKey<T, K(==)>(key: T -> K, k: K): T -> bool {
    (x: T) => key(x) == k
  }

  function KeyIn<T, K(==)>(key: T -> K, ks: seq<K>): T -> bool {
    (x: T) => key(x) in ks
  }

  /** The elements of s grouped by key, one group for every key of ks. */
  function Groups<T, K(==)>(key: T -> K, s: seq<T>, ks: seq<K>): seq<seq<T>> {
    if ks == [] then [] else Groups(key, s, ks[..|ks| - 1]) + [Filter(WithKey(key, ks[|ks| - 1]), s)]
  }

  lemma {:induction false} FilterNone<T>(p: T -> bool, s: seq<T>)
    requires forall x :: x in s ==> !p(x)
    ensures Filter(p, s) == []
  {
    if s != [] {
      FilterNone(p, s[..|s| - 1]);
    }
  }

  lemma {:induction false} FilterAll<T>(p: T -> bool, s: seq<T>)
    requires forall x :: x in s ==> p(x)
    ensures Filter(p, s) == s
  {
    if s != [] {
      FilterAll(p, s[..|s| - 1]);
      assert s == s[..|s| - 1] + [s[|s| - 1]];
    }
  }

  lemma {:induction false} FilterKeyIn<T, K>(key: T -> K, s: seq<T>, ks: seq<K>, k: K)
    requires k !in ks
    ensures multiset(Filter(KeyIn(key, ks + [k]), s)) ==
              multiset(Filter(KeyIn(key, ks), s)) + multiset(Filter(WithKey(key, k), s))
  {
    if s != [] {
      FilterKeyIn(key, s[..|s| - 1], ks, k);
    }
  }

  lemma {:induction false} GroupsFilter<T, K>(key: T -> K, s: seq<T>, ks: seq<K>)
    requires NoDup(ks)
    ensures multiset(Flatten(Groups(key, s, ks))) == multiset(Filter(KeyIn(key, ks), s))
  {
    if ks == [] {
      FilterNone(KeyIn(key, []), s);
    } else {
      var n := |ks| - 1;
      assert ks == ks[..n] + [ks[n]];
      GroupsFilter(key, s, ks[..n]);
      FilterKeyIn(key, s, ks[..n], ks[n]);
      FlattenSnoc(Groups(key, s, ks[..n]), Filter(WithKey(key, ks[n]), s));
    }
  }

  function KeysOf<T(==), K(==)>(key: T -> K, s: seq<T>): set<K> {
    set x | x in s :: key(x)
  }

  /** The elements of s grouped by key, as a map. */
  function GroupMap<T(==), K(==)>(key: T -> K, s: seq<T>): (m: map<K, seq<T>>)
    ensures m.Keys == KeysOf(key, s)
  {
    map k | k in KeysOf(key, s) :: Filter(WithKey(key, k), s)
  }

  lemma KeysSnoc<T, K>(key: T -> K, s: seq<T>, x: T)
    ensures KeysOf(key, s + [x]) == KeysOf(key, s) + {key(x)}
  {
  }

  lemma GroupGrows<T, K>(key: T -> K, s: seq<T>, x: T, k: K)
    ensures Filter(WithKey(key, k), s + [x]) == Filter(WithKey(key, k), s) + (if k == key(x) then [x] else [])
    ensures k !in KeysOf(key, s) ==> Filter(WithKey(key, k), s) == []
  {
    FilterSnoc(WithKey(key, k), s, x);
    if k !in KeysOf(key, s) {
      FilterNone(WithKey(key, k), s);
    }
  }

  lemma GroupAt<T, K>(key: T -> K, s: seq<T>, k: K)
    requires k in GroupMap(key, s)
    ensures GroupMap(key, s)[k] == Filter(WithKey(key, k), s)
  {
  }

  /** One more element joins, or starts, the group of its key. */
  lemma GroupMapSnoc<T, K>(key: T -> K, s: seq<T>, x: T)
    ensures var m := GroupMap(key, s);
            GroupMap(key, s + [x]) == m[key(x) := (if key(x) in m then m[key(x)] else []) + [x]]
  {
    hide GroupMap, KeysOf, Filter, WithKey;
    var k := key(x);
    var m := GroupMap(key, s);
    var grown := m[k := (if k in m then m[k] else []) + [x]];
    KeysSnoc(key, s, x);
    assert GroupMap(key, s + [x]).Keys == grown.Keys;
    forall g | g in grown ensures GroupMap(key, s + [x])[g] == grown[g] {
      GroupGrows(key, s, x, g);
      GroupAt(key, s + [x], g);
      if g in m {
        GroupAt(key, s, g);
      }
    }
  }

  function MapValues<K, V, W>(f: V -> W, m: map<K, V>): (r: map<K, W>)
    ensures r.Keys == m.Keys
  {
    map k | k in m :: f(m[k])
  }

  lemma SameMaps<K, V>(a: map<K, V>, b: map<K, V>)
    requires a.Keys == b.Keys && forall k :: k in a ==> a[k] == b[k]
    ensures a == b
  {
  }

  lemma MapValuesUpdate<K, V, W>(f: V -> W, m: map<K, V>, k: K, v: V)
    ensures MapValues(f, m[k := v]) == MapValues(f, m)[k := f(v)]
  {
    assert MapValues(f, m[k := v]).Keys == MapValues(f, m)[k := f(v)].Keys;
  }

  function Size<T>(): seq<T> -> int {
    (s: seq<T>) => |s|
  }

  lemma SizesGrow<K, T>(m: map<K, seq<T>>, k: K, x: T)
    ensures MapSum(MapValues(Size(), m[k := (if k in m then m[k] else []) + [x]])) == MapSum(MapValues(Size(), m)) + 1
  {
    var v := (if k in m then m[k] else []) + [x];
    MapValuesUpdate(Size(), m, k, v);
    MapSumUpdate(MapValues(Size(), m), k, |v|);
  }

  lemma NoGroups<T, K>(key: T -> K)
    ensures GroupMap(key, []) == map[] && MapSum(MapValues(Size(), GroupMap(key, []))) == 0
  {
    assert KeysOf(key, []) == {};
    assert MapValues(Size(), GroupMap(key, [])).Keys == {};
  }

  /** The sizes of all groups add up to the length of the sequence. */
  lemma {:induction false} GroupSizesSum<T, K>(key: T -> K, s: seq<T>)
    ensures MapSum(MapValues(Size(), GroupMap(key, s))) == |s|
  {
    hide *;
    if s == [] {
      NoGroups(key);
    } else {
      var n := |s| - 1;
      GroupSizesSum(key, s[..n]);
      GroupMapSnoc(key, s[..n], s[n]);
      assert s == s[..n] + [s[n]];
      SizesGrow(GroupMap(key, s[..n]), key(s[n]), s[n]);
    }
  }

  /** Grouping by key loses and duplicates nothing, whatever order the keys are walked in. */
  lemma GroupingKeeps<T, K>(key: T -> K, s: seq<T>, ks: seq<K>)
    requires NoDup(ks) && forall x :: x in s ==> key(x) in ks
    ensures multiset(Flatten(Groups(key, s, ks))) == multiset(s)
  {
    GroupsFilter(key, s, ks);
    FilterAll(KeyIn(key, ks), s);
  }

  /** An order in which an unordered container with the given keys may be walked. */
  ghost predicate WalkOrder<T(!new)>(order: seq<T>, keys: set<T>) {
    NoDup(order) && (forall k :: k in keys <==> k in order)
  }

  lemma WalkOrderSnoc<T(!new)>(order: seq<T>, keys: set<T>, k: T)
    requires WalkOrder(order, keys) && k !in keys
    ensures WalkOrder(order + [k], keys + {k})
  {
    assert k !in order;
  }

  lemma {:induction false} WalkOrderSize<T(!new)>(order: seq<T>, keys: set<T>)
    requires WalkOrder(order, keys)
    ensures |order| == |keys|
  {
    if order == [] {
      assert keys == {};
    } else {
      var n := |order| - 1;
      assert order == order[..n] + [order[n]];
      WalkOrderSize(order[..n], keys - {order[n]});
    }
  }

  /** s with f applied to every element. */
  function MapSeq<A, B>(f: A -> B, s: seq<A>): (r: seq<B>)
    ensures |r| == |s|
    ensures forall i :: 0 <= i < |s| ==> r[i] == f(s[i])
  {
    seq(|s|, i requires 0 <= i < |s| => f(s[i]))
  }

  /** If two sequences rearrange each other, so do their images under any map that agrees on equal elements. */
  lemma {:induction false} ImagesPermute<A, B>(a: seq<A>, b: seq<A>, fa: seq<B>, fb: seq<B>)
    requires multiset(a) == multiset(b)
    requires |fa| == |a| && |fb| == |b|
    requires forall i, j :: 0 <= i < |a| && 0 <= j < |b| && a[i] == b[j] ==> fa[i] == fb[j]
    ensures multiset(fa) == multiset(fb)
    decreases |a|
  {
    SamePermutationLength(a, b);
    if a != [] {
      var n := |a| - 1;
      var k := PermutedIndex(a, b);
      ImagesPermute(a[..n], b[..k] + b[k + 1..], fa[..n], fb[..k] + fb[k + 1..]);
      assert fa == fa[..n] + [fa[n]];
      assert fb == fb[..k] + [fb[k]] + fb[k + 1..];
    }
  }

  lemma SomeElement<T>(s: set<T>) returns (x: T)
    requires s != {}
    ensures x in s
  {
    x :| x in s;
  }

  lemma SomeKey<K, V>(m: map<K, V>) returns (k: K)
    requires m != map[]
    ensures k in m
  {
    assert m.Keys != {};
    k := SomeElement(m.Keys);
  }

  lemma {:induction false} SetHasBounds(s: set<int>) returns (lo: int, hi: int)
    requires s != {}
    ensures lo in s && hi in s && forall x :: x in s ==> lo <= x <= hi
    decreases |s|
  {
    var y := SomeElement(s);
    lo, hi := y, y;
    if s - {y} != {} {
      var l, h := SetHasBounds(s - {y});
      lo, hi := if l < y then l else y, if h > y then h else y;
    }
    assert s == s - {y} + {y};
  }

  lemma UpdateTwice<K, V>(m: map<K, V>, k: K, v: V, w: V)
    ensures m[k := v][k := w] == m[k := w]
  {
  }

  /** The integers from lo up to but not including hi. */
  function Range(lo: int, hi: int): (r: seq<int>)
    ensures |r| == if lo < hi then hi - lo else 0
    ensures forall k :: 0 <= k < |r| ==> r[k] == lo + k
  {
    if lo < hi then seq(hi - lo, k => lo + k) else []
  }

  /** Sum of the values of a finite map. */
  ghost function MapSum<K>(m: map<K, int>): int {
    if m == map[] then 0
    else
      var k :| k in m;
      m[k] + MapSum(m - {k})
  }

  lemma {:induction false} MapSumRemove<K>(m: map<K, int>, k: K)
    requires k in m
    ensures MapSum(m) == m[k] + MapSum(m - {k})
    decreases |m|
  {
    var p :| p in m && MapSum(m) == m[p] + MapSum(m - {p});
    if p != k {
      MapSumRemove(m - {p}, k);
      MapSumRemove(m - {k}, p);
      assert m - {p} - {k} == m - {k} - {p};
    }
  }

  lemma MapSumUpdate<K>(m: map<K, int>, k: K, v: int)
    ensures MapSum(m[k := v]) == MapSum(m) - (if k in m then m[k] else 0) + v
  {
    MapSumRemove(m[k := v], k);
    if k in m {
      MapSumRemove(m, k);
      assert m[k := v] - {k} == m - {k};
    } else {
      assert m[k := v] - {k} == m;
    }
  }

  lemma {:induction false} MapSumNonNegative<K>(m: map<K, int>)
    requires forall k :: k in m ==> m[k] >= 0
    ensures MapSum(m) >= 0
    decreases |m|
  {
    if m != map[] {
      var k :| k in m && MapSum(m) == m[k] + MapSum(m - {k});
      MapSumNonNegative(m - {k});
    }
  }

  /** Sum of the values of a finite map of reals. */
  ghost function RealSum<K>(m: map<K, real>): real {
    if m == map[] then 0.0
    else
      var k :| k in m;
      m[k] + RealSum(m - {k})
  }

  lemma {:induction false} RealSumRemove<K>(m: map<K, real>, k: K)
    requires k in m
    ensures RealSum(m) == m[k] + RealSum(m - {k})
    decreases |m|
  {
    var p :| p in m && RealSum(m) == m[p] + RealSum(m - {p});
    if p != k {
      RealSumRemove(m - {p}, k);
      RealSumRemove(m - {k}, p);
      assert m - {p} - {k} == m - {k} - {p};
    }
  }

  lemma RealSumUpdate<K>(m: map<K, real>, k: K, v: real)
    ensures RealSum(m[k := v]) == RealSum(m) - (if k in m then m[k] else 0.0) + v
  {
    RealSumRemove(m[k := v], k);
    if k in m {
      RealSumRemove(m, k);
      assert m[k := v] - {k} == m - {k};
    } else {
      assert m[k := v] - {k} == m;
    }
  }
}
