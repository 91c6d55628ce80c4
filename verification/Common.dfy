/** Shared helpers. */
module Common {
  datatype Option<+T> = None | Some(value: T)

  function Max(a: int, b: int): int {
    if a >= b then a else b
  }

  function Decimal(n: nat): string {
    (if n < 10 then "" else Decimal(n / 10)) + ["0123456789"[n % 10]]
  }

  /** The number that digits stand for. */
  function NumberOf(digits: string): int {
    if digits == "" then 0
    else 10 * NumberOf(digits[..|digits| - 1]) + (digits[|digits| - 1] as int - '0' as int)
  }

  predicate AreDigits(s: string) {
    s != "" && forall i :: 0 <= i < |s| ==> '0' <= s[i] <= '9'
  }

  /** A number is written in digits that stand for it, without leading zeros. */
  lemma {:induction false} DecimalStandsFor(n: nat)
    ensures AreDigits(Decimal(n)) && NumberOf(Decimal(n)) == n
    ensures if n == 0 then |Decimal(n)| == 1 else Decimal(n)[0] != '0'
  {
    var front, d := if n < 10 then "" else Decimal(n / 10), "0123456789"[n % 10];
    DigitStandsFor(n % 10);
    NumberOfOneMore(front, d);
    if n >= 10 {
      DecimalStandsFor(n / 10);
      assert n == 10 * (n / 10) + n % 10;
    } else {
      assert front + [d] == [d];
    }
  }

  lemma DigitStandsFor(digit: nat)
    requires digit < 10
    ensures "0123456789"[digit] as int == '0' as int + digit
  {
    assert digit == 0 || digit == 1 || digit == 2 || digit == 3 || digit == 4 || digit == 5 || digit == 6 ||
           digit == 7 || digit == 8 || digit == 9;
  }

  lemma NumberOfOneMore(digits: string, d: char)
    ensures NumberOf(digits + [d]) == 10 * NumberOf(digits) + (d as int - '0' as int)
    ensures '0' <= d <= '9' ==> (AreDigits(digits + [d]) <==> digits == "" || AreDigits(digits))
  {
    assert (digits + [d])[..|digits|] == digits;
    assert forall i :: 0 <= i < |digits| ==> (digits + [d])[i] == digits[i];
  }

  /** Each value once, at its first place: the keys of a dict built from a list. */
  function Uniques<T(==, !new)>(xs: seq<T>): (us: seq<T>)
    ensures forall x :: x in us <==> x in xs
    ensures forall i, j :: 0 <= i < j < |us| ==> us[i] != us[j]
  {
    if xs == [] then []
    else
      var us, last := Uniques(xs[..|xs| - 1]), xs[|xs| - 1];
      assert forall x :: x in xs <==> x in xs[..|xs| - 1] || x == last;
      if last in us then us else us + [last]
  }

  /** x appears in the list before any y does. */
  ghost predicate ComesFirst<T>(xs: seq<T>, x: T, y: T) {
    exists i :: 0 <= i < |xs| && xs[i] == x && forall j :: 0 <= j <= i ==> xs[j] != y
  }

  lemma ComesFirstInMore<T>(xs: seq<T>, last: T, x: T, y: T)
    requires ComesFirst(xs, x, y)
    ensures ComesFirst(xs + [last], x, y)
  {
    var i :| 0 <= i < |xs| && xs[i] == x && forall j :: 0 <= j <= i ==> xs[j] != y;
    assert (xs + [last])[i] == x && forall j :: 0 <= j <= i ==> (xs + [last])[j] == xs[j];
  }

  lemma AppearsFirst<T>(xs: seq<T>, x: T, y: T)
    requires x in xs && y !in xs
    ensures ComesFirst(xs + [y], x, y)
  {
    var i :| 0 <= i < |xs| && xs[i] == x;
    assert (xs + [y])[i] == x && forall j :: 0 <= j <= i ==> (xs + [y])[j] == xs[j];
  }

  /** Each of the list's values once, in the order of first appearance. */
  lemma {:induction false} UniquesAreOrdered<T(!new)>(xs: seq<T>)
    ensures forall i, j :: 0 <= i < j < |Uniques(xs)| ==> ComesFirst(xs, Uniques(xs)[i], Uniques(xs)[j])
  {
    if xs != [] {
      var front, last := xs[..|xs| - 1], xs[|xs| - 1];
      UniquesAreOrdered(front);
      assert front + [last] == xs;
      var us := Uniques(front);
      forall i, j | 0 <= i < j < |Uniques(xs)|
        ensures ComesFirst(xs, Uniques(xs)[i], Uniques(xs)[j])
      {
        if j < |us| {
          ComesFirstInMore(front, last, us[i], us[j]);
        } else {
          assert us[i] in us;
          AppearsFirst(front, us[i], last);
        }
      }
    }
  }

  lemma Reassociate<T>(a: seq<T>, b: seq<T>, c: seq<T>)
    ensures (a + b) + c == a + (b + c)
  {
  }
}
