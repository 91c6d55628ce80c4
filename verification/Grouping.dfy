/** Python's `groups.setdefault(key(x), []).append(x)` over a list: a dict of
    lists in insertion order. */
module Grouping {
  import opened Common

  datatype Group<K, V> = Group(key: K, items: seq<V>)

  function Keys<K, V>(xs: seq<V>, key: V -> K): (ks: seq<K>)
    ensures |ks| == |xs| && forall i :: 0 <= i < |xs| ==> ks[i] == key(xs[i])
  {
    if xs == [] then [] else Keys(xs[..|xs| - 1], key) + [key(xs[|xs| - 1])]
  }

  /** The values with a given key, in order. */
  function ItemsWith<K(==), V(!new)>(xs: seq<V>, key: V -> K, k: K): (items: seq<V>)
    ensures forall x :: x in items <==> x in xs && key(x) == k
  {
    if xs == [] then []
    else
      var last := xs[|xs| - 1];
      assert forall x :: x in xs <==> x in xs[..|xs| - 1] || x == last;
      ItemsWith(xs[..|xs| - 1], key, k) + if key(last) == k then [last] else []
  }

  /** One group per key, in order of first appearance, holding exactly the values
      with that key. */
  ghost predicate IsGrouping<K(!new), V(!new)>(xs: seq<V>, key: V -> K, groups: seq<Group<K, V>>) {
    var ks := Uniques(Keys(xs, key));
    && |groups| == |ks|
    && forall g :: 0 <= g < |groups| ==> groups[g].key == ks[g] && groups[g].items == ItemsWith(xs, key, ks[g])
  }

  /** The items are those at the places of the list that have the key, in order. */
  ghost predicate AreAt<K, V>(xs: seq<V>, key: V -> K, g: Group<K, V>, places: seq<nat>) {
    && |places| == |g.items|
    && (forall i, j :: 0 <= i < j < |places| ==> places[i] < places[j])
    && (forall i :: 0 <= i < |places| ==> places[i] < |xs| && g.items[i] == xs[places[i]])
    && (forall p :: 0 <= p < |xs| ==> (p in places <==> key(xs[p]) == g.key))
  }

  /** The first value with one key comes before the first with the other. */
  ghost predicate KeyComesFirst<K, V>(xs: seq<V>, key: V -> K, k: K, later: K) {
    exists i :: 0 <= i < |xs| && key(xs[i]) == k && forall j :: 0 <= j <= i ==> key(xs[j]) != later
  }

  /** A group for each key, in the order the keys appear. */
  ghost predicate SortsInto<K(!new), V(!new)>(xs: seq<V>, key: V -> K, groups: seq<Group<K, V>>) {
    && (forall g :: 0 <= g < |groups| ==> groups[g].items != [] && exists places :: AreAt(xs, key, groups[g], places))
    && (forall x :: x in xs ==> exists g :: 0 <= g < |groups| && groups[g].key == key(x))
    && (forall g, h :: 0 <= g < h < |groups| ==> KeyComesFirst(xs, key, groups[g].key, groups[h].key))
  }

  lemma {:induction false} PlacesOf<K, V(!new)>(xs: seq<V>, key: V -> K, k: K) returns (places: seq<nat>)
    ensures AreAt(xs, key, Group(k, ItemsWith(xs, key, k)), places)
  {
    if xs == [] {
      return [];
    }
    var n := |xs| - 1;
    var before := PlacesOf(xs[..n], key, k);
    places := before;
    if key(xs[n]) == k {
      places := before + [n];
      OnePlaceMore(xs, key, Group(k, ItemsWith(xs[..n], key, k)), before);
    }
  }

  lemma OnePlaceMore<K, V>(xs: seq<V>, key: V -> K, g: Group<K, V>, places: seq<nat>)
    requires xs != [] && AreAt(xs[..|xs| - 1], key, g, places) && key(xs[|xs| - 1]) == g.key
    ensures AreAt(xs, key, Group(g.key, g.items + [xs[|xs| - 1]]), places + [|xs| - 1])
  {
    var n := |xs| - 1;
    forall p | 0 <= p < |xs|
      ensures p in places + [n] <==> key(xs[p]) == g.key
    {
      if p < n {
        assert xs[..n][p] == xs[p];
      }
    }
  }

  lemma GroupingSorts<K(!new), V(!new)>(xs: seq<V>, key: V -> K, groups: seq<Group<K, V>>)
    requires IsGrouping(xs, key, groups)
    ensures SortsInto(xs, key, groups)
  {
    EveryValueIsGrouped(xs, key, groups);
    forall g | 0 <= g < |groups|
      ensures exists places :: AreAt(xs, key, groups[g], places)
    {
      var places := PlacesOf(xs, key, groups[g].key);
    }
    var ks := Keys(xs, key);
    UniquesAreOrdered(ks);
    forall g, h | 0 <= g < h < |groups|
      ensures KeyComesFirst(xs, key, groups[g].key, groups[h].key)
    {
      assert ComesFirst(ks, groups[g].key, groups[h].key);
      var i :| 0 <= i < |ks| && ks[i] == groups[g].key && forall j :: 0 <= j <= i ==> ks[j] != groups[h].key;
      assert key(xs[i]) == groups[g].key && forall j :: 0 <= j <= i ==> key(xs[j]) == ks[j];
    }
  }

  method GroupBy<K(==, !new), V(!new)>(xs: seq<V>, key: V -> K) returns (groups: seq<Group<K, V>>)
    ensures IsGrouping(xs, key, groups)
  {
    groups := [];
    for i := 0 to |xs|
      invariant IsGrouping(xs[..i], key, groups)
    {
      var k := key(xs[i]);
      var g := 0;
      while g < |groups| && groups[g].key != k
        invariant g <= |groups| && forall h :: 0 <= h < g ==> groups[h].key != k
      {
        g := g + 1;
      }
      GroupGrows(xs, i, key, groups, g);
      if g < |groups| {
        groups := groups[g := Group(k, groups[g].items + [xs[i]])];
      } else {
        groups := groups + [Group(k, [xs[i]])];
      }
    }
    assert xs[..|xs|] == xs;
  }

  lemma GroupGrows<K(!new), V(!new)>(xs: seq<V>, i: nat, key: V -> K, groups: seq<Group<K, V>>, g: nat)
    requires i < |xs| && IsGrouping(xs[..i], key, groups)
    requires g <= |groups| && (forall h :: 0 <= h < g ==> groups[h].key != key(xs[i]))
    requires g < |groups| ==> groups[g].key == key(xs[i])
    ensures IsGrouping(xs[..i + 1], key,
              if g < |groups| then groups[g := Group(key(xs[i]), groups[g].items + [xs[i]])]
              else groups + [Group(key(xs[i]), [xs[i]])])
  {
    var before, after := xs[..i], xs[..i + 1];
    assert after[..i] == before;
    var k := key(xs[i]);
    var ks := Keys(before, key);
    assert (ks + [k])[..|ks|] == ks;
    var us := Uniques(ks);
    if g < |groups| {
      assert us[g] == k && k in us;
    } else {
      assert k !in us;
      NoItems(before, key, k);
    }
  }

  lemma {:induction false} NoItems<K, V(!new)>(xs: seq<V>, key: V -> K, k: K)
    requires k !in Keys(xs, key)
    ensures ItemsWith(xs, key, k) == []
  {
    if xs != [] {
      var ks := Keys(xs, key);
      assert ks[|xs| - 1] == key(xs[|xs| - 1]);
      assert Keys(xs[..|xs| - 1], key) == ks[..|xs| - 1];
      NoItems(xs[..|xs| - 1], key, k);
    }
  }

  /** Every value is in exactly the group of its key, and groups hold nothing else. */
  lemma EveryValueIsGrouped<K(!new), V(!new)>(xs: seq<V>, key: V -> K, groups: seq<Group<K, V>>)
    requires IsGrouping(xs, key, groups)
    ensures forall x :: x in xs ==> exists g :: 0 <= g < |groups| && groups[g].key == key(x) && x in groups[g].items
    ensures forall g, x :: 0 <= g < |groups| && x in groups[g].items ==> x in xs && key(x) == groups[g].key
    ensures forall g, h :: 0 <= g < h < |groups| ==> groups[g].key != groups[h].key
    ensures forall g :: 0 <= g < |groups| ==> groups[g].items != []
  {
    var ks := Keys(xs, key);
    forall x | x in xs
      ensures exists g :: 0 <= g < |groups| && groups[g].key == key(x) && x in groups[g].items
    {
      var i :| 0 <= i < |xs| && xs[i] == x;
      assert ks[i] in ks && key(x) in Uniques(ks);
      var g :| 0 <= g < |groups| && Uniques(ks)[g] == key(x);
      assert groups[g].key == key(x) && x in groups[g].items;
    }
    forall g | 0 <= g < |groups|
      ensures groups[g].items != []
    {
      assert Uniques(ks)[g] in ks;
      var i :| 0 <= i < |ks| && ks[i] == Uniques(ks)[g];
      assert xs[i] in xs && xs[i] in groups[g].items;
    }
  }

  lemma GroupOf<K(!new), V(!new)>(xs: seq<V>, key: V -> K, groups: seq<Group<K, V>>, x: V) returns (g: nat)
    requires IsGrouping(xs, key, groups) && x in xs
    ensures g < |groups| && groups[g].key == key(x) && x in groups[g].items
  {
    EveryValueIsGrouped(xs, key, groups);
    g :| 0 <= g < |groups| && groups[g].key == key(x) && x in groups[g].items;
  }

  lemma MemberOf<K(!new), V(!new)>(xs: seq<V>, key: V -> K, groups: seq<Group<K, V>>, g: nat, x: V)
    requires IsGrouping(xs, key, groups) && g < |groups| && x in groups[g].items
    ensures x in xs && key(x) == groups[g].key
  {
  }

  lemma KeyDecides<K(!new), V(!new)>(xs: seq<V>, key: V -> K, groups: seq<Group<K, V>>, g: nat, h: nat)
    requires IsGrouping(xs, key, groups) && g < |groups| && h < |groups| && groups[g].key == groups[h].key
    ensures g == h
  {
  }

  lemma KeysDiffer<K(!new), V(!new)>(xs: seq<V>, key: V -> K, groups: seq<Group<K, V>>)
    requires IsGrouping(xs, key, groups)
    ensures forall g, h :: 0 <= g < h < |groups| ==> groups[g].key != groups[h].key
  {
  }

  lemma GroupsAreNonempty<K(!new), V(!new)>(xs: seq<V>, key: V -> K, groups: seq<Group<K, V>>)
    requires IsGrouping(xs, key, groups)
    ensures forall g :: 0 <= g < |groups| ==> groups[g].items != []
  {
    EveryValueIsGrouped(xs, key, groups);
  }
}
