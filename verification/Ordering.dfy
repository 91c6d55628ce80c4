/** Python's order on strings and pairs of strings, and sorting a set by it. */
module Ordering {
  type Pair = (string, string)

  predicate StrLe(a: string, b: string) {
    a == [] || (b != [] && (a[0] < b[0] || (a[0] == b[0] && StrLe(a[1..], b[1..]))))
  }

  predicate PairLe(p: Pair, q: Pair) {
    if p.0 == q.0 then StrLe(p.1, q.1) else StrLe(p.0, q.0)
  }

  /** The first character that differs decides; a text comes after its beginnings. */
  lemma {:induction false} StrLeIs(a: string, b: string)
    ensures StrLe(a, b) <==> a <= b || exists i :: 0 <= i < |a| && i < |b| && a[..i] == b[..i] && a[i] < b[i]
  {
    if a != [] && b != [] && a[0] == b[0] {
      StrLeIs(a[1..], b[1..]);
      assert a == [a[0]] + a[1..] && b == [b[0]] + b[1..];
      if i :| 0 <= i < |a| - 1 && i < |b| - 1 && a[1..][..i] == b[1..][..i] && a[1..][i] < b[1..][i] {
        assert a[..i + 1] == [a[0]] + a[1..][..i] && b[..i + 1] == [b[0]] + b[1..][..i] && a[i + 1] < b[i + 1];
      }
      if i :| 0 <= i < |a| && i < |b| && a[..i] == b[..i] && a[i] < b[i] {
        assert i > 0 && a[1..][..i - 1] == a[..i][1..] && b[1..][..i - 1] == b[..i][1..];
        assert a[1..][i - 1] < b[1..][i - 1];
      }
    } else if a != [] && b != [] {
      assert a[..0] == b[..0];
    }
  }

  lemma {:induction false} StrLeIsTotal(a: string, b: string)
    ensures StrLe(a, b) || StrLe(b, a)
    ensures StrLe(a, b) && StrLe(b, a) ==> a == b
  {
    if a != [] && b != [] && a[0] == b[0] {
      StrLeIsTotal(a[1..], b[1..]);
      assert a == [a[0]] + a[1..] && b == [b[0]] + b[1..];
    }
  }

  lemma {:induction false} StrLeIsTransitive(a: string, b: string, c: string)
    requires StrLe(a, b) && StrLe(b, c)
    ensures StrLe(a, c)
  {
    if a != [] && b != [] && c != [] && a[0] == b[0] == c[0] {
      StrLeIsTransitive(a[1..], b[1..], c[1..]);
    }
  }

  lemma PairLeIsTotal(p: Pair, q: Pair)
    ensures PairLe(p, q) || PairLe(q, p)
    ensures PairLe(p, q) && PairLe(q, p) ==> p == q
  {
    StrLeIsTotal(p.0, q.0);
    StrLeIsTotal(p.1, q.1);
  }

  lemma PairLeIsTransitive(p: Pair, q: Pair, r: Pair)
    requires PairLe(p, q) && PairLe(q, r)
    ensures PairLe(p, r)
  {
    StrLeIsTotal(p.0, q.0);
    StrLeIsTotal(q.0, r.0);
    if p.0 == q.0 == r.0 {
      StrLeIsTransitive(p.1, q.1, r.1);
    } else {
      if p.0 != q.0 && q.0 != r.0 {
        StrLeIsTransitive(p.0, q.0, r.0);
      }
    }
  }

  ghost predicate Ascending(ps: seq<Pair>) {
    forall i, j :: 0 <= i < j < |ps| ==> PairLe(ps[i], ps[j]) && ps[i] != ps[j]
  }

  /** The least element of a set. */
  method Least(s: set<Pair>) returns (least: Pair)
    requires s != {}
    ensures least in s && forall p :: p in s ==> PairLe(least, p)
  {
    least :| least in s;
    PairLeIsTotal(least, least);
    var rest := s - {least};
    while rest != {}
      invariant rest <= s && least in s
      invariant forall p :: p in s - rest ==> PairLe(least, p)
      decreases rest
    {
      var p :| p in rest;
      PairLeIsTotal(least, p);
      PairLeIsTotal(p, p);
      if !PairLe(least, p) {
        forall q | q in s - rest
          ensures PairLe(p, q)
        {
          PairLeIsTransitive(p, least, q);
        }
        least := p;
      }
      rest := rest - {p};
    }
  }

  /** sorted(s) */
  method Sorted(s: set<Pair>) returns (ps: seq<Pair>)
    ensures Ascending(ps) && (forall p :: p in ps <==> p in s)
  {
    ps := [];
    var rest := s;
    while rest != {}
      invariant rest <= s && Ascending(ps)
      invariant forall p :: p in ps <==> p in s && p !in rest
      invariant forall i, p :: 0 <= i < |ps| && p in rest ==> PairLe(ps[i], p)
      decreases rest
    {
      var p := Least(rest);
      assert forall i :: 0 <= i < |ps| ==> ps[i] in ps;
      ps := ps + [p];
      rest := rest - {p};
    }
  }
}
