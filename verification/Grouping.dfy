/** Grouping a list into an insertion-ordered dictionary of lists. */
module Grouping {

  function Where<T(!new)>(xs: seq<T>, p: T -> bool): (r: seq<T>)
    ensures forall x :: x in r <==> x in xs && p(x)
    ensures |r| <= |xs|
    decreases |xs|
  {
    if xs == [] then [] else (if p(xs[0]) then [xs[0]] else []) + Where(xs[1..], p)
  }

  function KeyIs<T(!new), K(==)>(key: T -> K, k: K): T -> bool {
    (x: T) => key(x) == k
  }

  function KeyIsNot<T(!new), K(==)>(key: T -> K, k: K): T -> bool {
    (x: T) => key(x) != k
  }

  function Group<T(!new), K(==)>(xs: seq<T>, key: T -> K, k: K): seq<T> {
    Where(xs, KeyIs(key, k))
  }

  /** The keys of a list in the order they first occur. */
  function Keys<T(!new), K(==)>(xs: seq<T>, key: T -> K): (r: seq<K>)
    decreases |xs|
  {
    if xs == [] then [] else [key(xs[0])] + Keys(Where(xs[1..], KeyIsNot(key, key(xs[0]))), key)
  }

  function If<T>(b: bool, x: T): seq<T> {
    if b then [x] else []
  }

  lemma WhereCons<T(!new)>(x: T, xs: seq<T>, p: T -> bool)
    ensures Where([x] + xs, p) == If(p(x), x) + Where(xs, p)
  {
    assert ([x] + xs)[1..] == xs;
  }

  /** One step of a selection. */
  lemma WhereHead<T(!new)>(xs: seq<T>, p: T -> bool)
    requires xs != []
    ensures Where(xs, p) == if p(xs[0]) then [xs[0]] + Where(xs[1..], p) else Where(xs[1..], p)
  {
  }

  lemma Associative<T>(xs: seq<T>, ys: seq<T>, zs: seq<T>)
    ensures xs + (ys + zs) == xs + ys + zs
  {
  }

  lemma {:induction false} WhereConcat<T(!new)>(xs: seq<T>, ys: seq<T>, p: T -> bool)
    ensures Where(xs + ys, p) == Where(xs, p) + Where(ys, p)
    decreases |xs|
  {
    if xs == [] {
      assert xs + ys == ys;
      assert Where(xs, p) == [];
    } else {
      hide Where, If;
      WhereConcat(xs[1..], ys, p);
      assert [xs[0]] + (xs[1..] + ys) == xs + ys && [xs[0]] + xs[1..] == xs;
      WhereCons(xs[0], xs[1..] + ys, p);
      WhereCons(xs[0], xs[1..], p);
      Associative(If(p(xs[0]), xs[0]), Where(xs[1..], p), Where(ys, p));
    }
  }

  lemma WhereOne<T(!new)>(x: T, p: T -> bool)
    ensures Where([x], p) == If(p(x), x)
  {
    assert Where<T>([], p) == [];
  }

  lemma WhereSnoc<T(!new)>(xs: seq<T>, x: T, p: T -> bool)
    ensures Where(xs + [x], p) == if p(x) then Where(xs, p) + [x] else Where(xs, p)
  {
    WhereConcat(xs, [x], p);
    WhereOne(x, p);
  }

  /** Dropping one key first does not change the group of another. */
  lemma {:induction false} WhereOther<T(!new), K>(xs: seq<T>, key: T -> K, k: K, other: K)
    requires k != other
    ensures Where(Where(xs, KeyIsNot(key, k)), KeyIs(key, other)) == Where(xs, KeyIs(key, other))
    decreases |xs|
  {
    if xs != [] {
      WhereOther(xs[1..], key, k, other);
      if key(xs[0]) != k {
        WhereCons(xs[0], Where(xs[1..], KeyIsNot(key, k)), KeyIs(key, other));
      } else {
        assert Where(xs, KeyIsNot(key, k)) == Where(xs[1..], KeyIsNot(key, k));
        assert Where(xs, KeyIs(key, other)) == Where(xs[1..], KeyIs(key, other));
      }
    }
  }

  lemma {:induction false} KeysMember<T(!new), K>(xs: seq<T>, key: T -> K, x: T)
    requires x in xs
    ensures key(x) in Keys(xs, key)
    decreases |xs|
  {
    var k0 := key(xs[0]);
    if key(x) != k0 {
      var rest := Where(xs[1..], KeyIsNot(key, k0));
      KeysMember(rest, key, x);
    }
  }

  lemma {:induction false} KeysOrigin<T(!new), K>(xs: seq<T>, key: T -> K, k: K) returns (x: T)
    requires k in Keys(xs, key)
    ensures x in xs && key(x) == k
    decreases |xs|
  {
    x := xs[0];
    if k != key(x) {
      var rest := Where(xs[1..], KeyIsNot(key, key(xs[0])));
      x := KeysOrigin(rest, key, k);
    }
  }

  lemma {:induction false} KeysSnoc<T(!new), K>(xs: seq<T>, x: T, key: T -> K)
    ensures Keys(xs + [x], key) == Keys(xs, key) + If(key(x) !in Keys(xs, key), key(x))
    decreases |xs|
  {
    if xs == [] {
      assert xs + [x] == [x];
      assert Keys<T, K>([], key) == [];
    } else {
      var k0 := key(xs[0]);
      var rest := Where(xs[1..], KeyIsNot(key, k0));
      assert (xs + [x])[1..] == xs[1..] + [x];
      WhereConcat(xs[1..], [x], KeyIsNot(key, k0));
      WhereOne(x, KeyIsNot(key, k0));
      assert Keys(xs + [x], key) == [k0] + Keys(rest + If(key(x) != k0, x), key);
      assert Keys(xs, key) == [k0] + Keys(rest, key);
      hide Keys;
      if key(x) != k0 {
        KeysSnoc(rest, x, key);
        assert If(true, x) == [x];
      } else {
        assert rest + If(false, x) == rest;
      }
      SnocUnderHead(k0, Keys(rest, key), key(x));
    }
  }

  lemma SnocUnderHead<K>(head: K, ks: seq<K>, k: K)
    ensures [head] + (ks + If(k !in ks, k)) == ([head] + ks) + If(k !in ks, k)
    ensures k != head ==> (k in [head] + ks <==> k in ks)
    ensures k == head ==> k in [head] + ks
  {
  }

  lemma {:induction false} KeysDistinct<T(!new), K>(xs: seq<T>, key: T -> K, i: nat, j: nat)
    requires i < j < |Keys(xs, key)|
    ensures Keys(xs, key)[i] != Keys(xs, key)[j]
    decreases |xs|
  {
    var k0 := key(xs[0]);
    var rest := Where(xs[1..], KeyIsNot(key, k0));
    if i == 0 {
      var k := Keys(rest, key)[j - 1];
      assert k in Keys(rest, key);
      var x := KeysOrigin(rest, key, k);
    } else {
      KeysDistinct(rest, key, i - 1, j - 1);
    }
  }

  /** The dictionary holds every key's group, under keys in the order they first occurred. */
  ghost predicate Grouped<T(!new), K(!new)>(xs: seq<T>, key: T -> K, order: seq<K>, groups: map<K, seq<T>>) {
    && order == Keys(xs, key)
    && (forall k :: k in order <==> k in groups)
    && (forall k :: k in groups ==> groups[k] == Group(xs, key, k) && groups[k] != [])
  }

  lemma GroupedKnown<T(!new), K(!new)>(xs: seq<T>, x: T, key: T -> K, order: seq<K>, groups: map<K, seq<T>>)
    requires Grouped(xs, key, order, groups) && key(x) in groups
    ensures Grouped(xs + [x], key, order, groups[key(x) := groups[key(x)] + [x]])
  {
    hide Keys, Group, Where;
    KeysSnoc(xs, x, key);
    assert key(x) in order;
    var after := groups[key(x) := groups[key(x)] + [x]];
    forall k | k in after
      ensures after[k] == Group(xs + [x], key, k)
    {
      Snoc(xs, x, key, k);
    }
  }

  lemma GroupedNew<T(!new), K(!new)>(xs: seq<T>, x: T, key: T -> K, order: seq<K>, groups: map<K, seq<T>>)
    requires Grouped(xs, key, order, groups) && key(x) !in groups
    ensures Grouped(xs + [x], key, order + [key(x)], groups[key(x) := [x]])
  {
    hide Keys, Group, Where;
    KeysSnoc(xs, x, key);
    assert key(x) !in order;
    EmptyGroup(xs, key, key(x));
    assert [] + [x] == [x];
    var after := groups[key(x) := [x]];
    forall k | k in after
      ensures after[k] == Group(xs + [x], key, k)
    {
      Snoc(xs, x, key, k);
    }
  }

  /** The loop that fills the dictionary. */
  method GroupBy<T(!new), K(==, !new)>(xs: seq<T>, key: T -> K) returns (order: seq<K>, groups: map<K, seq<T>>)
    ensures Grouped(xs, key, order, groups)
  {
    order, groups := [], map[];
    for i := 0 to |xs|
      invariant Grouped(xs[..i], key, order, groups)
    {
      var k := key(xs[i]);
      assert xs[..i + 1] == xs[..i] + [xs[i]];
      hide Grouped;
      if k in groups {
        GroupedKnown(xs[..i], xs[i], key, order, groups);
        groups := groups[k := groups[k] + [xs[i]]];
      } else {
        GroupedNew(xs[..i], xs[i], key, order, groups);
        order := order + [k];
        groups := groups[k := [xs[i]]];
      }
    }
    assert xs[..|xs|] == xs;
  }

  lemma Snoc<T(!new), K>(xs: seq<T>, x: T, key: T -> K, k: K)
    ensures Group(xs + [x], key, k)
         == if key(x) == k then Group(xs, key, k) + [x] else Group(xs, key, k)
  {
    WhereConcat(xs, [x], KeyIs(key, k));
    WhereOne(x, KeyIs(key, k));
  }

  lemma EmptyGroup<T(!new), K>(xs: seq<T>, key: T -> K, k: K)
    ensures k !in Keys(xs, key) ==> Group(xs, key, k) == []
  {
    var group := Group(xs, key, k);
    if group != [] {
      KeysMember(xs, key, group[0]);
    }
  }

  /** What a loop over the dictionary has still to serve: the groups of `rest`, under `order`. */
  ghost predicate Unserved<T(!new), K(!new)>(rest: seq<T>, key: T -> K, order: seq<K>, groups: map<K, seq<T>>) {
    && order == Keys(rest, key)
    && (forall k :: k in order ==> k in groups && groups[k] == Group(rest, key, k))
  }

  lemma GroupedUnserved<T(!new), K(!new)>(xs: seq<T>, key: T -> K, order: seq<K>, groups: map<K, seq<T>>)
    requires Grouped(xs, key, order, groups)
    ensures Unserved(xs, key, order, groups)
  {
  }

  lemma UnservedNone<T(!new), K(!new)>(rest: seq<T>, key: T -> K, groups: map<K, seq<T>>)
    requires Unserved(rest, key, [], groups)
    ensures rest == []
  {
  }

  lemma UnservedStep<T(!new), K(!new)>(rest: seq<T>, key: T -> K, order: seq<K>, groups: map<K, seq<T>>)
    requires Unserved(rest, key, order, groups) && order != []
    ensures rest != [] && key(rest[0]) == order[0] && order[0] in groups
    ensures groups[order[0]] == Where(rest, KeyIs(key, order[0]))
    ensures Unserved(Where(rest, KeyIsNot(key, order[0])), key, order[1..], groups)
  {
    var k := order[0];
    assert rest != [];
    var after := Where(rest[1..], KeyIsNot(key, k));
    WhereHead(rest, KeyIsNot(key, k));
    forall j | 1 <= j < |order|
      ensures order[j] in groups && groups[order[j]] == Group(after, key, order[j])
    {
      KeysDistinct(rest, key, 0, j);
      WhereOther(rest, key, k, order[j]);
    }
  }
}
