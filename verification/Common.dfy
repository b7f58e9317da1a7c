/** Small vocabulary shared by the models. */
module Common {

  datatype Option<+T> = None | Some(value: T)

  predicate NoDup<T(==)>(s: seq<T>) {
    forall i, j | 0 <= i < j < |s| :: s[i] != s[j]
  }

  /** Removes the first occurrence of x. On a duplicate-free sequence that removes exactly x. */
  function Remove<T(==, !new)>(s: seq<T>, x: T): (r: seq<T>)
    ensures |r| == if x in s then |s| - 1 else |s|
    ensures NoDup(s) ==> NoDup(r) && forall y :: y in r <==> y in s && y != x
  {
    if s == [] then []
    else if s[0] == x then
      assert s == [x] + s[1..];
      s[1..]
    else
      assert s == [s[0]] + s[1..];
      var rest := Remove(s[1..], x);
      assert NoDup(s) ==> s[0] !in rest;
      [s[0]] + rest
  }

  predicate Descending(s: seq<nat>) {
    forall i, j | 0 <= i < j < |s| :: s[i] > s[j]
  }

  lemma {:induction false} RemoveDescending(s: seq<nat>, x: nat)
    requires Descending(s)
    ensures NoDup(s) && Descending(Remove(s, x))
  {
    if s != [] && s[0] != x {
      RemoveDescending(s[1..], x);
      var rest := Remove(s[1..], x);
      assert NoDup(s[1..]);
      forall k | 0 <= k < |rest| ensures rest[k] < s[0] {
        assert rest[k] in s[1..];
      }
      assert Remove(s, x) == [s[0]] + rest;
    }
  }

  lemma PrependDescending(s: seq<nat>, x: nat)
    requires Descending(s) && forall i | 0 <= i < |s| :: s[i] < x
    ensures Descending([x] + s) && NoDup([x] + s)
  {
    var r := [x] + s;
    assert forall i | 0 < i < |r| :: r[i] == s[i - 1];
  }

  lemma Assoc<T>(a: seq<T>, b: seq<T>, c: seq<T>)
    ensures (a + b) + c == a + (b + c)
  {}

  function Concat<T>(pieces: seq<seq<T>>): seq<T> {
    if pieces == [] then [] else pieces[0] + Concat(pieces[1..])
  }

  function Pow(b: nat, k: nat): (p: nat)
    ensures b > 0 ==> p > 0
  {
    if k == 0 then 1 else b * Pow(b, k - 1)
  }

  lemma MulBound(n: int, d: int)
    ensures n >= 0 && d >= 1 ==> n * d >= n
    ensures n >= 0 && d <= -1 ==> n * d <= -n
  {
    if n >= 0 && d >= 1 { assert n * d == n * (d - 1) + n; }
    if n >= 0 && d <= -1 { assert n * d == n * (d + 1) - n; }
  }

  /** Quotient and remainder are determined by the equation between them. */
  lemma DivModUnique(x: nat, n: nat, q: nat, r: nat)
    requires r < n && x == n * q + r
    ensures x / n == q && x % n == r
  {
    var d := x / n - q;
    assert x == n * (x / n) + x % n;
    assert n * d == r - x % n;
    MulBound(n, d);
  }

  /** Dividing by a product divides by one factor and then the other. */
  lemma DivModProduct(x: nat, a: nat, b: nat)
    requires a > 0 && b > 0
    ensures a * b > 0
    ensures x / (a * b) == x / a / b
    ensures x % (a * b) == a * (x / a % b) + x % a
    ensures (x % (a * b)) / a == x / a % b && (x % (a * b)) % a == x % a
  {
    MulBound(a, b);
    Split(x, a, b, a * b, x / a, x % a);
  }

  lemma Split(x: nat, a: nat, b: nat, p: nat, q: nat, r: nat)
    requires a > 0 && b > 0 && p == a * b && p > 0 && x == a * q + r && r < a
    ensures x / p == q / b && x % p == a * (q % b) + r
    ensures (x % p) / a == q % b && (x % p) % a == r
  {
    var s, m := q / b, q % b;
    var t := a * m + r;
    assert q == b * s + m;
    Regroup(a, b, s, m, r);
    BelowProduct(a, b, m, r);
    DivModUnique(x, p, s, t);
    DivModUnique(t, a, m, r);
  }

  lemma Regroup(a: nat, b: nat, s: nat, m: nat, r: nat)
    ensures a * (b * s + m) + r == (a * b) * s + (a * m + r)
  {
    assert a * (b * s + m) == a * (b * s) + a * m;
    assert a * (b * s) == (a * b) * s;
  }

  lemma BelowProduct(a: nat, b: nat, m: nat, r: nat)
    requires m < b && r < a
    ensures a * m + r < a * b
  {
    MulMonotone(a, m, b - 1);
    assert a * (b - 1) == a * b - a;
  }

  lemma MulMonotone(a: nat, x: int, y: int)
    requires x <= y
    ensures a * x <= a * y
  {
    assert a * (y - x) >= 0;
  }
}
