/**
 * PHP arrays as insertion-ordered maps.
 *
 * An array is the sequence of its entries in iteration order. Assigning to
 * a key that is present replaces its value where it stands; assigning to a
 * new key appends it. The `+` operator keeps every entry of its left operand
 * and adds, in order, the entries of its right operand whose key the left
 * one lacks.
 */
module PhpArrays {
  import opened Options

  type OrderedMap<K(==), V> = seq<(K, V)>

  /** The keys in iteration order. */
  function Keys<K(==), V>(m: OrderedMap<K, V>): seq<K> {
    seq(|m|, i requires 0 <= i < |m| => m[i].0)
  }

  predicate HasKey<K(==), V>(m: OrderedMap<K, V>, k: K) {
    k in Keys(m)
  }

  /** What a PHP array can hold: no key twice. */
  predicate UniqueKeys<K(==), V>(m: OrderedMap<K, V>) {
    forall i, j :: 0 <= i < j < |m| ==> m[i].0 != m[j].0
  }

  /** `$m[$k]`, or None when the key is absent. */
  function Get<K(==), V>(m: OrderedMap<K, V>, k: K): (r: Option<V>)
    ensures r.Some? <==> HasKey(m, k)
    ensures r.Some? ==> (k, r.value) in m
  {
    if m == [] then None
    else if m[0].0 == k then
      assert Keys(m)[0] == k;
      Some(m[0].1)
    else
      KeysCons(m);
      Get(m[1..], k)
  }

  /** The assignment `$m[$k] = $v`. */
  function Set<K(==), V>(m: OrderedMap<K, V>, k: K, v: V): (r: OrderedMap<K, V>)
    ensures Keys(r) == if HasKey(m, k) then Keys(m) else Keys(m) + [k]
  {
    if m == [] then [(k, v)]
    else if m[0].0 == k then
      var r := [(k, v)] + m[1..];
      assert Keys(m)[0] == k;
      assert Keys(r) == Keys(m);
      r
    else
      var rest := Set(m[1..], k, v);
      KeysCons(m);
      KeysCons([m[0]] + rest);
      assert ([m[0]] + rest)[1..] == rest;
      [m[0]] + rest
  }

  /** The entries of `m` whose key is not among `ks`, in order. */
  function Without<K(==), V>(m: OrderedMap<K, V>, ks: seq<K>): (r: OrderedMap<K, V>)
    ensures forall p :: p in r ==> p in m && p.0 !in ks
    ensures forall i :: 0 <= i < |m| && m[i].0 !in ks ==> m[i] in r
  {
    if m == [] then []
    else (if m[0].0 in ks then [] else [m[0]]) + Without(m[1..], ks)
  }

  /** The array union `$l + $r`: keys of the left operand win. */
  function Union<K(==), V>(l: OrderedMap<K, V>, r: OrderedMap<K, V>): (u: OrderedMap<K, V>)
    ensures |u| >= |l| && u[..|l|] == l
  {
    var u := l + Without(r, Keys(l));
    assert u[..|l|] == l;
    u
  }

  lemma KeysCons<K, V>(m: OrderedMap<K, V>)
    requires m != []
    ensures Keys(m) == [m[0].0] + Keys(m[1..])
  {
  }

  /** In a PHP array, looking up the key of an entry finds that entry's value. */
  lemma {:induction false} GetEntry<K, V>(m: OrderedMap<K, V>, i: nat)
    requires UniqueKeys(m) && i < |m|
    ensures Get(m, m[i].0) == Some(m[i].1)
  {
    if i > 0 {
      assert m[0].0 != m[i].0;
      assert m[1..][i - 1] == m[i];
      GetEntry(m[1..], i - 1);
    }
  }

  /** After `$m[$k] = $v`, `$m[$k]` is `$v`. */
  lemma {:induction false} SetSame<K, V>(m: OrderedMap<K, V>, k: K, v: V)
    ensures Get(Set(m, k, v), k) == Some(v)
  {
    if m != [] && m[0].0 != k {
      SetSame(m[1..], k, v);
      assert Set(m, k, v)[1..] == Set(m[1..], k, v);
    }
  }

  /** After `$m[$k] = $v`, every other key has its old value. */
  lemma {:induction false} SetOther<K, V>(m: OrderedMap<K, V>, k: K, v: V, k': K)
    requires k' != k
    ensures Get(Set(m, k, v), k') == Get(m, k')
  {
    if m != [] && m[0].0 != k {
      SetOther(m[1..], k, v, k');
      assert Set(m, k, v)[1..] == Set(m[1..], k, v);
    } else if m != [] {
      assert Set(m, k, v)[1..] == m[1..];
    }
  }

  /** After `$m[$k] = $v`, no other key has changed. */
  lemma SetFrame<K, V>(m: OrderedMap<K, V>, k: K, v: V)
    ensures forall k' :: k' != k ==> Get(Set(m, k, v), k') == Get(m, k')
  {
    forall k' | k' != k ensures Get(Set(m, k, v), k') == Get(m, k') {
      SetOther(m, k, v, k');
    }
  }

  /** Every entry after `$m[$k] = $v` is an old entry or the new one. */
  lemma {:induction false} SetEntries<K, V>(m: OrderedMap<K, V>, k: K, v: V)
    ensures forall p :: p in Set(m, k, v) ==> p in m || p == (k, v)
  {
    if m != [] && m[0].0 != k {
      SetEntries(m[1..], k, v);
    }
  }

  /** Assignment keeps the keys of a PHP array unique. */
  lemma SetUnique<K, V>(m: OrderedMap<K, V>, k: K, v: V)
    requires UniqueKeys(m)
    ensures UniqueKeys(Set(m, k, v))
  {
    var r := Set(m, k, v);
    assert forall i :: 0 <= i < |r| ==> r[i].0 == Keys(r)[i];
    assert forall i :: 0 <= i < |m| ==> m[i].0 == Keys(m)[i];
  }

  /** Assigning one key twice leaves only the second value (last write wins). */
  lemma {:induction false} SetSet<K, V>(m: OrderedMap<K, V>, k: K, v1: V, v2: V)
    ensures Set(Set(m, k, v1), k, v2) == Set(m, k, v2)
  {
    if m != [] && m[0].0 != k {
      SetSet(m[1..], k, v1, v2);
      assert Set(m, k, v1)[1..] == Set(m[1..], k, v1);
    }
  }

  /** Looking a key up in a concatenation looks in the left part first. */
  lemma {:induction false} GetAppend<K, V>(a: OrderedMap<K, V>, b: OrderedMap<K, V>, k: K)
    ensures Get(a + b, k) == if HasKey(a, k) then Get(a, k) else Get(b, k)
  {
    if a != [] {
      KeysCons(a);
      assert (a + b)[1..] == a[1..] + b;
      assert (a + b)[0] == a[0];
      if a[0].0 != k {
        GetAppend(a[1..], b, k);
      }
    } else {
      assert a + b == b;
    }
  }

  lemma {:induction false} GetWithout<K, V>(m: OrderedMap<K, V>, ks: seq<K>, k: K)
    ensures Get(Without(m, ks), k) == if k in ks then None else Get(m, k)
  {
    if m != [] {
      var head := if m[0].0 in ks then [] else [m[0]];
      GetAppend(head, Without(m[1..], ks), k);
      GetWithout(m[1..], ks, k);
      KeysCons(m);
      if head != [] {
        KeysCons(head);
      }
    }
  }

  /**
   * The union finds a key's value in the left operand when it has the key,
   * otherwise in the right operand.
   */
  lemma UnionGet<K, V>(l: OrderedMap<K, V>, r: OrderedMap<K, V>, k: K)
    ensures Get(Union(l, r), k) == if HasKey(l, k) then Get(l, k) else Get(r, k)
  {
    GetAppend(l, Without(r, Keys(l)), k);
    GetWithout(r, Keys(l), k);
  }

  lemma UnionGetAll<K, V>(l: OrderedMap<K, V>, r: OrderedMap<K, V>)
    ensures forall k :: Get(Union(l, r), k) == if HasKey(l, k) then Get(l, k) else Get(r, k)
  {
    forall k ensures Get(Union(l, r), k) == if HasKey(l, k) then Get(l, k) else Get(r, k) {
      UnionGet(l, r, k);
    }
  }

  /** `[$k1 => $v1, $k2 => $v2, $k3 => $v3] + $r` for three distinct keys. */
  lemma UnionOfThree<K, V>(k1: K, k2: K, k3: K, v1: V, v2: V, v3: V, r: OrderedMap<K, V>)
    requires k1 != k2 && k1 != k3 && k2 != k3
    ensures var u := Union([(k1, v1), (k2, v2), (k3, v3)], r);
      && Get(u, k1) == Some(v1) && Get(u, k2) == Some(v2) && Get(u, k3) == Some(v3)
      && (forall k :: k != k1 && k != k2 && k != k3 ==> Get(u, k) == Get(r, k))
      && |u| >= 3 && Keys(u)[..3] == [k1, k2, k3]
      && (UniqueKeys(r) ==> UniqueKeys(u))
  {
    var l := [(k1, v1), (k2, v2), (k3, v3)];
    assert Keys(l) == [k1, k2, k3];
    UnionGetAll(l, r);
    GetEntry(l, 0);
    GetEntry(l, 1);
    GetEntry(l, 2);
    if UniqueKeys(r) {
      UnionUnique(l, r);
    }
  }

  lemma {:induction false} WithoutUnique<K, V>(m: OrderedMap<K, V>, ks: seq<K>)
    requires UniqueKeys(m)
    ensures UniqueKeys(Without(m, ks))
  {
    if m != [] {
      WithoutUnique(m[1..], ks);
      var w := Without(m[1..], ks);
      assert forall p :: p in w ==> p in m[1..];
      assert forall j :: 0 <= j < |w| ==> w[j] in m[1..];
    }
  }

  /** The union of two PHP arrays is a PHP array. */
  lemma UnionUnique<K, V>(l: OrderedMap<K, V>, r: OrderedMap<K, V>)
    requires UniqueKeys(l) && UniqueKeys(r)
    ensures UniqueKeys(Union(l, r))
  {
    var w := Without(r, Keys(l));
    WithoutUnique(r, Keys(l));
    assert forall j :: 0 <= j < |w| ==> w[j] in w;
    assert forall i :: 0 <= i < |l| ==> l[i].0 == Keys(l)[i];
  }

  /** `[] + $r` is `$r`. */
  lemma {:induction false} UnionEmptyLeft<K, V>(r: OrderedMap<K, V>)
    ensures Union([], r) == r
  {
    assert Keys<K, V>([]) == [];
    WithoutNothing(r);
  }

  lemma {:induction false} WithoutNothing<K, V>(m: OrderedMap<K, V>)
    ensures Without(m, []) == m
  {
    if m != [] {
      WithoutNothing(m[1..]);
    }
  }

  /**
   * When exactly the first `n` entries of `m` have their key among `ks`,
   * removing those keys leaves the suffix from `n` on.
   */
  lemma {:induction false} WithoutPrefix<K, V>(m: OrderedMap<K, V>, ks: seq<K>, n: nat)
    requires n <= |m|
    requires forall j :: 0 <= j < n ==> m[j].0 in ks
    requires forall j :: n <= j < |m| ==> m[j].0 !in ks
    ensures Without(m, ks) == m[n..]
  {
    if m == [] {
    } else if n == 0 {
      WithoutPrefix(m[1..], ks, 0);
      assert m == [m[0]] + m[1..];
    } else {
      WithoutPrefix(m[1..], ks, n - 1);
      assert m[1..][n - 1..] == m[n..];
    }
  }

  predicate NoDuplicates<T(==)>(s: seq<T>) {
    forall i, j :: 0 <= i < j < |s| ==> s[i] != s[j]
  }

  /** The position of the first occurrence of `x` in `s`. */
  function FirstIndex<T(==)>(s: seq<T>, x: T): (i: nat)
    requires x in s
    ensures i < |s| && s[i] == x && x !in s[..i]
  {
    if s[0] == x then 0
    else
      var i := FirstIndex(s[1..], x) + 1;
      assert s[..i] == [s[0]] + s[1..][..i - 1];
      i
  }

  /** A position holding `x` with no `x` before it is the first index of `x`. */
  lemma FirstIndexAt<T>(s: seq<T>, x: T, i: nat)
    requires i < |s| && s[i] == x && x !in s[..i]
    ensures FirstIndex(s, x) == i
  {
  }

  /** Appending a value leaves the first index of every earlier value alone. */
  lemma FirstIndexAppend<T>(init: seq<T>, last: T, x: T)
    requires x in init
    ensures FirstIndex(init + [last], x) == FirstIndex(init, x)
  {
    var f := FirstIndex(init, x);
    assert (init + [last])[..f] == init[..f];
    FirstIndexAt(init + [last], x, f);
  }

  /** The order of first occurrences survives appending a value. */
  lemma {:induction false} FirstOrderAppend<T>(init: seq<T>, last: T, prefix: seq<T>)
    requires forall i :: 0 <= i < |prefix| ==> prefix[i] in init
    requires forall i, j :: 0 <= i < j < |prefix| ==> FirstIndex(init, prefix[i]) < FirstIndex(init, prefix[j])
    ensures forall i, j :: 0 <= i < j < |prefix| ==>
      FirstIndex(init + [last], prefix[i]) < FirstIndex(init + [last], prefix[j])
    ensures last !in init ==> forall i, j :: 0 <= i < j < |prefix + [last]| ==>
      FirstIndex(init + [last], (prefix + [last])[i]) < FirstIndex(init + [last], (prefix + [last])[j])
  {
    var s := init + [last];
    forall i | 0 <= i < |prefix| ensures FirstIndex(s, prefix[i]) == FirstIndex(init, prefix[i]) {
      FirstIndexAppend(init, last, prefix[i]);
    }
    if last !in init {
      assert s[..|init|] == init;
      FirstIndexAt(s, last, |init|);
      forall i, j | 0 <= i < j < |prefix + [last]|
        ensures FirstIndex(s, (prefix + [last])[i]) < FirstIndex(s, (prefix + [last])[j])
      {
        if j == |prefix| {
          assert FirstIndex(init, prefix[i]) < |init|;
        }
      }
    }
  }

  /**
   * `array_unique` on a list: each value once, at the place of its first
   * occurrence, so the values come in the order they first appear.
   */
  function ArrayUnique<T(==)>(s: seq<T>): (r: seq<T>)
    ensures NoDuplicates(r)
    ensures forall i :: 0 <= i < |r| ==> r[i] in s
    ensures forall i :: 0 <= i < |s| ==> s[i] in r
    ensures forall i, j :: 0 <= i < j < |r| ==> FirstIndex(s, r[i]) < FirstIndex(s, r[j])
    decreases |s|
  {
    if s == [] then []
    else
      var init := s[..|s| - 1];
      var last := s[|s| - 1];
      var prefix := ArrayUnique(init);
      assert s == init + [last];
      assert forall i :: 0 <= i < |init| ==> init[i] == s[i];
      FirstOrderAppend(init, last, prefix);
      if last in prefix then prefix else prefix + [last]
  }

  /** `array_unique` leaves a list without duplicates as it was. */
  lemma {:induction false} ArrayUniqueDistinct<T>(s: seq<T>)
    requires NoDuplicates(s)
    ensures ArrayUnique(s) == s
    decreases |s|
  {
    if s != [] {
      var init := s[..|s| - 1];
      var last := s[|s| - 1];
      assert NoDuplicates(init);
      ArrayUniqueDistinct(init);
      assert last !in init by {
        assert forall i :: 0 <= i < |init| ==> init[i] == s[i];
      }
      assert ArrayUnique(s) == init + [last];
      assert s == init + [last];
    }
  }
}
