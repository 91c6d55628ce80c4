/** Edge signatures and the saved baseline: edge_signature and
    diff_against_baseline of webui/topology.py, and webui/topology_store.py. */
module Drift {
  import opened Common
  import opened Ordering

  // --- signatures -----------------------------------------------------------------

  /** What edge_signature returns; its sorted-keys JSON text is the value itself. */
  datatype EdgeSig = Internal(first: Pair, second: Pair) | External(device: string, port: string, chassis: string)

  /** A signature list entry; None is what an edge without LLDP evidence gives. */
  type Entry = Option<EdgeSig>

  function InternalSig(p: Pair, q: Pair): EdgeSig {
    if PairLe(p, q) then Internal(p, q) else Internal(q, p)
  }

  /** Two links have the same signature exactly when they join the same two ports. */
  lemma SignatureIsTheUnorderedPair(p: Pair, q: Pair, r: Pair, s: Pair)
    ensures InternalSig(p, q) == InternalSig(r, s) <==> (p == r && q == s) || (p == s && q == r)
    ensures InternalSig(p, q).Internal? && PairLe(InternalSig(p, q).first, InternalSig(p, q).second)
    ensures {InternalSig(p, q).first, InternalSig(p, q).second} == {p, q}
  {
    PairLeIsTotal(p, q);
    PairLeIsTotal(r, s);
  }

  // --- the difference ---------------------------------------------------------------

  function Without(xs: seq<Entry>, gone: seq<Entry>): (ys: seq<Entry>)
    ensures forall x :: x in ys <==> x in xs && x !in gone
  {
    if xs == [] then []
    else
      var last := xs[|xs| - 1];
      assert forall x :: x in xs <==> x in xs[..|xs| - 1] || x == last;
      Without(xs[..|xs| - 1], gone) + if last in gone then [] else [last]
  }

  /** The live signatures: edges without one are not followed. */
  function Live(sigs: seq<Entry>): seq<Entry> {
    Uniques(Without(sigs, [None]))
  }

  datatype Diff = Diff(added: seq<Entry>, removed: seq<Entry>)

  function DiffAgainst(sigs: seq<Entry>, baseline: seq<Entry>): Diff {
    Diff(Without(Live(sigs), baseline), Without(Uniques(baseline), Live(sigs)))
  }

  lemma LiveOfOneMore(sigs: seq<Entry>, i: nat)
    requires i < |sigs|
    ensures var live := Live(sigs[..i]);
            Live(sigs[..i + 1]) == if sigs[i].Some? && sigs[i] !in live then live + [sigs[i]] else live
  {
    assert sigs[..i + 1][..i] == sigs[..i];
    var before := Without(sigs[..i], [None]);
    assert (before + [sigs[i]])[..|before|] == before && before + [] == before;
  }

  /** The live dict: signatures that exist, keyed by their text. */
  method LiveOf(sigs: seq<Entry>) returns (live: seq<Entry>)
    ensures live == Live(sigs)
  {
    live := [];
    assert sigs[..0] == [];
    for i := 0 to |sigs|
      invariant live == Live(sigs[..i])
    {
      LiveOfOneMore(sigs, i);
      if sigs[i].Some? && sigs[i] !in live {
        live := live + [sigs[i]];
      }
    }
    assert sigs[..|sigs|] == sigs;
  }

  method KeysOf(baseline: seq<Entry>) returns (known: seq<Entry>)
    ensures known == Uniques(baseline)
  {
    known := [];
    for i := 0 to |baseline|
      invariant known == Uniques(baseline[..i])
    {
      assert baseline[..i + 1][..i] == baseline[..i];
      if baseline[i] !in known {
        known := known + [baseline[i]];
      }
    }
    assert baseline[..|baseline|] == baseline;
  }

  method ComputeDiff(sigs: seq<Entry>, baseline: Option<seq<Entry>>) returns (diff: Option<Diff>)
    ensures diff == if baseline == None then None else Some(DiffAgainst(sigs, baseline.value))
    ensures diff.Some? <==> baseline.Some?
    ensures diff.Some? ==> IsDifference(diff.value.added, sigs, baseline.value)
                           && IsDifference(diff.value.removed, baseline.value, sigs)
                           && None !in diff.value.added
  {
    if baseline == None {
      return None;
    }
    DiffIsDifference(sigs, baseline.value);
    var live := LiveOf(sigs);
    var known := KeysOf(baseline.value);
    WithoutSameElements(live, known, baseline.value);
    return Some(Diff(Without(live, known), Without(known, live)));
  }

  /** Just what is in one list and not in the other - a signature that is no signature is
      in no live list - each once, in the order of first appearance. */
  ghost predicate IsDifference(found: seq<Entry>, xs: seq<Entry>, others: seq<Entry>) {
    && (forall x :: x in found ==> x in xs && (x == None || x !in others))
    && (forall x :: x in xs && x != None && x !in others ==> x in found)
    && (forall i, j :: 0 <= i < j < |found| ==> ComesFirst(xs, found[i], found[j]))
  }

  /** Leaving values out keeps the order of the rest. */
  lemma {:induction false} WithoutIsOrdered(us: seq<Entry>, gone: seq<Entry>, xs: seq<Entry>)
    requires forall i, j :: 0 <= i < j < |us| ==> ComesFirst(xs, us[i], us[j])
    ensures forall i, j :: 0 <= i < j < |Without(us, gone)| ==>
              ComesFirst(xs, Without(us, gone)[i], Without(us, gone)[j])
  {
    if us != [] {
      var front, last := us[..|us| - 1], us[|us| - 1];
      WithoutIsOrdered(front, gone, xs);
      var w := Without(front, gone);
      forall i | 0 <= i < |w|
        ensures ComesFirst(xs, w[i], last)
      {
        assert w[i] in w && w[i] in front;
        var k :| 0 <= k < |front| && front[k] == w[i];
        assert ComesFirst(xs, us[k], us[|us| - 1]);
      }
    }
  }

  /** Leaving None out does not change what comes before what, among the others. */
  lemma {:induction false} OrderWithoutNone(xs: seq<Entry>, x: Entry, y: Entry)
    requires ComesFirst(Without(xs, [None]), x, y) && y != None
    ensures ComesFirst(xs, x, y)
  {
    var front, last := xs[..|xs| - 1], xs[|xs| - 1];
    assert front + [last] == xs;
    var w := Without(front, [None]);
    var i :| 0 <= i < |Without(xs, [None])| && Without(xs, [None])[i] == x
             && forall j :: 0 <= j <= i ==> Without(xs, [None])[j] != y;
    if i < |w| {
      assert w[i] == x && forall j :: 0 <= j <= i ==> w[j] == Without(xs, [None])[j];
      OrderWithoutNone(front, x, y);
      ComesFirstInMore(front, last, x, y);
    } else {
      assert forall j :: 0 <= j < |w| ==> w[j] == Without(xs, [None])[j];
      assert y !in w && last == x && x != y;
      assert xs[|xs| - 1] == x && forall j :: 0 <= j < |front| ==> xs[j] == front[j] && front[j] in front;
    }
  }

  lemma DiffIsDifference(sigs: seq<Entry>, baseline: seq<Entry>)
    ensures var d := DiffAgainst(sigs, baseline);
            IsDifference(d.added, sigs, baseline) && IsDifference(d.removed, baseline, sigs) && None !in d.added
  {
    var some, live := Without(sigs, [None]), Live(sigs);
    UniquesAreOrdered(some);
    forall i, j | 0 <= i < j < |live|
      ensures ComesFirst(sigs, live[i], live[j])
    {
      assert live[j] in live;
      OrderWithoutNone(sigs, live[i], live[j]);
    }
    WithoutIsOrdered(live, baseline, sigs);
    UniquesAreOrdered(baseline);
    WithoutIsOrdered(Uniques(baseline), live, baseline);
  }

  lemma {:induction false} WithoutSameElements(xs: seq<Entry>, a: seq<Entry>, b: seq<Entry>)
    requires forall x :: x in a <==> x in b
    ensures Without(xs, a) == Without(xs, b)
  {
    if xs != [] {
      WithoutSameElements(xs[..|xs| - 1], a, b);
    }
  }

  // --- the store ----------------------------------------------------------------------

  /** The elements of `added` not yet there, each once, in order. */
  function Appended(edges: seq<Entry>, added: seq<Entry>): (result: seq<Entry>)
    ensures forall x :: x in result <==> x in edges || x in added
    ensures |edges| <= |result| && result[..|edges|] == edges
  {
    if added == [] then edges
    else
      var done, last := Appended(edges, added[..|added| - 1]), added[|added| - 1];
      assert forall x :: x in added <==> x in added[..|added| - 1] || x == last;
      if last in done then done else done + [last]
  }

  function Accepted(baseline: seq<Entry>, added: seq<Entry>, removed: seq<Entry>): seq<Entry> {
    Appended(Without(baseline, removed), added)
  }

  /** How often each entry is there afterwards: as often as before if it was there and was
      not removed, else once if it was added. */
  ghost predicate IsAcceptance(before: seq<Entry>, added: seq<Entry>, removed: seq<Entry>, after: seq<Entry>) {
    forall x ::
      multiset(after)[x] == if x in before && x !in removed then multiset(before)[x] else if x in added then 1 else 0
  }

  lemma AcceptedIs(before: seq<Entry>, added: seq<Entry>, removed: seq<Entry>)
    ensures IsAcceptance(before, added, removed, Accepted(before, added, removed))
  {
    forall x
      ensures multiset(Accepted(before, added, removed))[x] ==
              if x in before && x !in removed then multiset(before)[x] else if x in added then 1 else 0
    {
      WithoutCounts(before, removed, x);
      AppendedCounts(Without(before, removed), added, x);
      assert x !in before ==> multiset(before)[x] == 0;
    }
  }

  class TopologyStore {
    var baseline: Option<seq<Entry>>
    var savedBy: string

    constructor ()
      ensures baseline == None
    {
      baseline, savedBy := None, "";
    }

    method Save(sigs: seq<Entry>, user: string)
      modifies this
      ensures baseline == Some(sigs) && savedBy == user
    {
      baseline, savedBy := Some(sigs), user;
    }

    /** Untouched entries stay, in order; removed ones go; new ones follow, once. */
    method Accept(added: seq<Entry>, removed: seq<Entry>, user: string)
      modifies this
      ensures savedBy == user
      ensures baseline == Some(Accepted(if old(baseline).Some? then old(baseline).value else [], added, removed))
      ensures baseline.Some? && IsAcceptance(if old(baseline).Some? then old(baseline).value else [], added, removed,
                                             baseline.value)
    {
      AcceptedIs(if baseline.Some? then baseline.value else [], added, removed);
      var stored := if baseline.Some? then baseline.value else [];
      var edges := Without(stored, removed);
      ghost var kept := edges;
      for i := 0 to |added|
        invariant edges == Appended(kept, added[..i])
      {
        assert added[..i + 1][..i] == added[..i];
        if added[i] !in edges {
          edges := edges + [added[i]];
        }
      }
      assert added[..|added|] == added;
      Save(edges, user);
    }

    method Clear()
      modifies this
      ensures baseline == None && savedBy == old(savedBy)
    {
      baseline := None;
    }
  }

  // --- accepting drift ------------------------------------------------------------------

  ghost predicate Subset(a: seq<Entry>, b: seq<Entry>) {
    forall x :: x in a ==> x in b
  }

  lemma {:induction false} WithoutTwice(xs: seq<Entry>, a: seq<Entry>, b: seq<Entry>)
    ensures Without(Without(xs, a), b) == Without(xs, a + b)
  {
    if xs != [] {
      var front, last := xs[..|xs| - 1], xs[|xs| - 1];
      WithoutTwice(front, a, b);
      var w := Without(front, a);
      assert (w + [last])[..|w|] == w;
      assert w + [] == w;
    }
  }

  lemma {:induction false} WithoutAll(xs: seq<Entry>, gone: seq<Entry>)
    requires forall x :: x in xs ==> x in gone
    ensures Without(xs, gone) == []
  {
    if xs != [] {
      WithoutAll(xs[..|xs| - 1], gone);
    }
  }

  lemma {:induction false} UniquesOfWithout(xs: seq<Entry>, gone: seq<Entry>)
    ensures Uniques(Without(xs, gone)) == Without(Uniques(xs), gone)
  {
    if xs != [] {
      var front, last := xs[..|xs| - 1], xs[|xs| - 1];
      UniquesOfWithout(front, gone);
      var w, u := Without(front, gone), Uniques(front);
      assert (w + [last])[..|w|] == w && w + [] == w;
      assert (u + [last])[..|u|] == u;
    }
  }

  /** Appending only things that are live adds nothing to what has been removed. */
  lemma {:induction false} AppendingLiveRemovesNothing(edges: seq<Entry>, added: seq<Entry>, live: seq<Entry>)
    requires Subset(added, live)
    ensures Without(Uniques(Appended(edges, added)), live) == Without(Uniques(edges), live)
  {
    if added != [] {
      var front, last := added[..|added| - 1], added[|added| - 1];
      assert last in added && Subset(front, added);
      AppendingLiveRemovesNothing(edges, front, live);
      var done := Appended(edges, front);
      assert (done + [last])[..|done|] == done;
      var u := Uniques(done);
      assert (u + [last])[..|u|] == u;
    }
  }

  /** After accepting any part of the reported drift, exactly the rest is still
      reported, in the same order. */
  lemma AcceptLeavesExactlyTheRest(sigs: seq<Entry>, baseline: seq<Entry>, added: seq<Entry>, removed: seq<Entry>)
    requires Subset(added, DiffAgainst(sigs, baseline).added) && Subset(removed, DiffAgainst(sigs, baseline).removed)
    ensures var before, after := DiffAgainst(sigs, baseline), DiffAgainst(sigs, Accepted(baseline, added, removed));
            after.added == Without(before.added, added) && after.removed == Without(before.removed, removed)
  {
    var live := Live(sigs);
    var next := Accepted(baseline, added, removed);
    // added
    WithoutTwice(live, baseline, added);
    forall x | x in live
      ensures x in next <==> x in baseline + added
    {
    }
    WithoutSameOn(live, next, baseline + added);
    // removed
    AppendingLiveRemovesNothing(Without(baseline, removed), added, live);
    UniquesOfWithout(baseline, removed);
    WithoutTwice(Uniques(baseline), removed, live);
    WithoutTwice(Uniques(baseline), live, removed);
    WithoutSameElements(Uniques(baseline), removed + live, live + removed);
  }

  lemma {:induction false} WithoutSameOn(xs: seq<Entry>, a: seq<Entry>, b: seq<Entry>)
    requires forall x :: x in xs ==> (x in a <==> x in b)
    ensures Without(xs, a) == Without(xs, b)
  {
    if xs != [] {
      WithoutSameOn(xs[..|xs| - 1], a, b);
      assert xs[|xs| - 1] in xs;
    }
  }

  /** Accepting all of the drift leaves none. */
  lemma AcceptingAllLeavesNothing(sigs: seq<Entry>, baseline: seq<Entry>)
    ensures var d := DiffAgainst(sigs, baseline);
            DiffAgainst(sigs, Accepted(baseline, d.added, d.removed)) == Diff([], [])
  {
    var d := DiffAgainst(sigs, baseline);
    AcceptLeavesExactlyTheRest(sigs, baseline, d.added, d.removed);
    WithoutAll(d.added, d.added);
    WithoutAll(d.removed, d.removed);
  }

  /** accept keeps what it does not touch, in order and as often as it was there, and
      what it adds comes after it, once each: it introduces no duplicate. */
  lemma AcceptIntroducesNoDuplicate(baseline: seq<Entry>, added: seq<Entry>, removed: seq<Entry>)
    ensures var kept, next := Without(baseline, removed), Accepted(baseline, added, removed);
            && kept <= next
            && (forall x :: multiset(next)[x] ==
                            if x in kept || x !in added then multiset(kept)[x] else 1)
            && (forall x :: multiset(kept)[x] == if x in removed then 0 else multiset(baseline)[x])
    ensures (forall x :: multiset(baseline)[x] <= 1) ==>
              forall x :: multiset(Accepted(baseline, added, removed))[x] <= 1
  {
    forall x
      ensures multiset(Without(baseline, removed))[x] == if x in removed then 0 else multiset(baseline)[x]
    {
      WithoutCounts(baseline, removed, x);
    }
    forall x
      ensures var kept := Without(baseline, removed);
              multiset(Accepted(baseline, added, removed))[x] == if x in kept || x !in added then multiset(kept)[x]
                  else 1
    {
      AppendedCounts(Without(baseline, removed), added, x);
    }
  }

  lemma CountOneMore(xs: seq<Entry>, last: Entry, x: Entry)
    ensures multiset(xs + [last])[x] == multiset(xs)[x] + if x == last then 1 else 0
  {
  }

  lemma {:induction false} WithoutCounts(xs: seq<Entry>, gone: seq<Entry>, x: Entry)
    ensures multiset(Without(xs, gone))[x] == if x in gone then 0 else multiset(xs)[x]
  {
    if xs != [] {
      var front, last := xs[..|xs| - 1], xs[|xs| - 1];
      WithoutCounts(front, gone, x);
      assert xs == front + [last];
      CountOneMore(front, last, x);
      CountOneMore(Without(front, gone), last, x);
      assert Without(front, gone) + [] == Without(front, gone);
    }
  }

  lemma {:induction false} AppendedCounts(edges: seq<Entry>, added: seq<Entry>, x: Entry)
    ensures multiset(Appended(edges, added))[x] == if x in edges || x !in added then multiset(edges)[x] else 1
  {
    if added != [] {
      var front, last := added[..|added| - 1], added[|added| - 1];
      AppendedCounts(edges, front, x);
      CountOneMore(Appended(edges, front), last, x);
      assert x in added <==> x in front || x == last;
      assert x !in Appended(edges, front) ==> multiset(Appended(edges, front))[x] == 0;
    }
  }

  /** A full relearn leaves no drift, unless it stored an edge without a
      signature: that entry is reported as removed from then on. */
  lemma RelearnLeavesNoDriftIff(sigs: seq<Entry>)
    ensures DiffAgainst(sigs, sigs).added == []
    ensures DiffAgainst(sigs, sigs).removed == if None in sigs then [None] else []
  {
    WithoutAll(Live(sigs), sigs);
    RemovedAfterRelearn(sigs, sigs);
  }

  lemma {:induction false} RemovedAfterRelearn(sigs: seq<Entry>, all: seq<Entry>)
    requires Subset(sigs, all)
    ensures Without(Uniques(sigs), Live(all)) == if None in sigs then [None] else []
  {
    if sigs != [] {
      var front, last := sigs[..|sigs| - 1], sigs[|sigs| - 1];
      assert Subset(front, sigs) && last in sigs;
      RemovedAfterRelearn(front, all);
      assert forall x :: x in sigs <==> x in front || x == last;
      var u := Uniques(front);
      assert (u + [last])[..|u|] == u;
    }
  }
}
