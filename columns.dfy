// Column layout shared by the formation builders: a formation is a sequence
// of columns, each column a sequence of units (index 0 = front).

module Optional {
  datatype Option<T> = None | Some(value: T)
}

module Columns {

  /** All units of a formation, column by column, each column front to back. */
  function Concat<T>(cols: seq<seq<T>>): seq<T>
    decreases |cols|
  {
    if cols == [] then [] else Concat(cols[..|cols| - 1]) + cols[|cols| - 1]
  }

  /** Replacing one column changes the formation's units by exactly that column's units. */
  lemma {:induction false} ConcatUpdate<T>(cols: seq<seq<T>>, i: nat, s: seq<T>)
    requires i < |cols|
    ensures multiset(Concat(cols[i := s])) + multiset(cols[i]) == multiset(Concat(cols)) + multiset(s)
    decreases |cols|
  {
    var n := |cols| - 1;
    var after := cols[i := s];
    var front, afterFront := Concat(cols[..n]), Concat(after[..n]);
    assert Concat(after) == afterFront + after[n];
    assert Concat(cols) == front + cols[n];
    if i == n {
      assert after[..n] == cols[..n];
      MultisetSwap(multiset(front), multiset(s), multiset(cols[n]));
    } else {
      assert after[..n] == cols[..n][i := s];
      ConcatUpdate(cols[..n], i, s);
      MultisetSwap(multiset(afterFront), multiset(cols[n]), multiset(cols[i]));
      MultisetSwap(multiset(front), multiset(s), multiset(cols[n]));
    }
  }

  /** Multiset union may take its operands in any order. */
  lemma MultisetSwap<T>(a: multiset<T>, b: multiset<T>, c: multiset<T>)
    ensures (a + b) + c == (a + c) + b
  {
    forall x ensures ((a + b) + c)[x] == ((a + c) + b)[x] {
    }
  }

  /** A unit belongs to the formation iff it stands at some (column, rank). */
  lemma {:induction false} InConcat<T>(cols: seq<seq<T>>, u: T)
    ensures u in Concat(cols) <==> exists c, k :: 0 <= c < |cols| && 0 <= k < |cols[c]| && cols[c][k] == u
    decreases |cols|
  {
    if cols != [] {
      var n := |cols| - 1;
      InConcat(cols[..n], u);
      assert Concat(cols) == Concat(cols[..n]) + cols[n];
      if u in Concat(cols[..n]) {
        var c, k :| 0 <= c < n && 0 <= k < |cols[..n][c]| && cols[..n][c][k] == u;
        assert cols[c][k] == u;
      } else if u in cols[n] {
        var k :| 0 <= k < |cols[n]| && cols[n][k] == u;
        assert cols[n][k] == u;
      }
      if exists c, k :: 0 <= c < |cols| && 0 <= k < |cols[c]| && cols[c][k] == u {
        var c, k :| 0 <= c < |cols| && 0 <= k < |cols[c]| && cols[c][k] == u;
        if c < n {
          assert cols[..n][c][k] == u;
        } else {
          assert cols[n][k] == u;
        }
      }
    }
  }

  // ---------------------------------------------------------------------
  // Round-robin distribution: unit k (0-based) goes to column k mod n.
  // ---------------------------------------------------------------------

  /** The columns after pushing each unit, in order, to the back of column k mod n. */
  function RoundRobin<T>(units: seq<T>, n: nat): (cols: seq<seq<T>>)
    requires n > 0
    ensures |cols| == n
    decreases |units|
  {
    if units == [] then seq(n, _ => [])
    else
      var m := |units| - 1;
      var prev := RoundRobin(units[..m], n);
      prev[m % n := prev[m % n] + [units[m]]]
  }

  /** Multiplication by a natural number is monotone. */
  lemma {:induction false} MulMono(n: nat, a: nat, b: nat)
    requires a <= b
    ensures n * a <= n * b
    decreases b - a
  {
    if a < b {
      MulMono(n, a + 1, b);
      assert n * (a + 1) == n * a + n;
    }
  }

  /** The one quotient and remainder of x by n. */
  lemma DivModUnique(x: nat, n: nat, q: nat, r: nat)
    requires n > 0 && r < n && x == n * q + r
    ensures x / n == q && x % n == r
  {
    var q', r' := x / n, x % n;
    assert x == n * q' + r' && 0 <= r' < n;
    if q' < q {
      MulMono(n, q' + 1, q);
      assert false;
    } else if q < q' {
      MulMono(n, q + 1, q');
      assert false;
    }
  }

  /** Division by n is monotone. */
  lemma DivMono(x: nat, y: nat, n: nat)
    requires n > 0 && x <= y
    ensures x / n <= y / n
  {
    assert x == n * (x / n) + x % n && y == n * (y / n) + y % n;
    if y / n < x / n {
      MulMono(n, y / n + 1, x / n);
      assert false;
    }
  }

  /** How quotient and remainder move from m to m + 1. */
  lemma DivModNext(m: nat, n: nat)
    requires n > 0
    ensures m % n == n - 1 ==> (m + 1) / n == m / n + 1 && (m + 1) % n == 0
    ensures m % n < n - 1 ==> (m + 1) / n == m / n && (m + 1) % n == m % n + 1
  {
    var q, r := m / n, m % n;
    assert m == n * q + r;
    if r == n - 1 {
      DivModUnique(m + 1, n, q + 1, 0);
    } else {
      DivModUnique(m + 1, n, q, r + 1);
    }
  }

  /** Column c receives one unit per full round, plus one if it is among the first |units| mod n. */
  lemma {:induction false} RoundRobinLength<T>(units: seq<T>, n: nat, c: nat)
    requires n > 0 && c < n
    ensures |RoundRobin(units, n)[c]| == |units| / n + (if c < |units| % n then 1 else 0)
    decreases |units|
  {
    if units != [] {
      var m := |units| - 1;
      RoundRobinLength(units[..m], n, c);
      DivModNext(m, n);
    }
  }

  /** Rank r of column c holds unit r * n + c. */
  lemma {:induction false} RoundRobinAt<T>(units: seq<T>, n: nat, c: nat, r: nat)
    requires n > 0 && c < n && r < |RoundRobin(units, n)[c]|
    ensures r * n + c < |units| && RoundRobin(units, n)[c][r] == units[r * n + c]
    decreases |units|
  {
    var m := |units| - 1;
    var prev := RoundRobin(units[..m], n);
    assert RoundRobin(units, n) == prev[m % n := prev[m % n] + [units[m]]];
    RoundRobinLength(units[..m], n, c);
    if c == m % n && r == |prev[c]| {
      DivModRecompose(m, n);
    } else {
      RoundRobinAt(units[..m], n, c, r);
    }
  }

  /** Quotient times divisor plus remainder gives back the dividend. */
  lemma DivModRecompose(m: nat, n: nat)
    requires n > 0
    ensures (m / n) * n + m % n == m
  {
    var q := m / n;
    assert m == n * q + m % n;
    assert q * n == n * q;
  }

  /** Unit k (0-based) stands in column k mod n at rank k / n. */
  lemma {:induction false} RoundRobinPlacement<T>(units: seq<T>, n: nat, k: nat)
    requires n > 0 && k < |units|
    ensures k / n < |RoundRobin(units, n)[k % n]|
    ensures RoundRobin(units, n)[k % n][k / n] == units[k]
    decreases |units|
  {
    var m := |units| - 1;
    var prev := RoundRobin(units[..m], n);
    assert RoundRobin(units, n) == prev[m % n := prev[m % n] + [units[m]]];
    if k == m {
      RoundRobinLength(units[..m], n, m % n);
    } else {
      RoundRobinPlacement(units[..m], n, k);
    }
  }

  /** Every unit is placed exactly once: the columns hold the units given, no more and no fewer. */
  lemma {:induction false} RoundRobinTotal<T>(units: seq<T>, n: nat)
    requires n > 0
    ensures multiset(Concat(RoundRobin(units, n))) == multiset(units)
    decreases |units|
  {
    if units == [] {
      EmptyColumnsConcat(RoundRobin(units, n));
    } else {
      var m := |units| - 1;
      RoundRobinTotal(units[..m], n);
      var prev := RoundRobin(units[..m], n);
      PushKeepsUnits(prev, m % n, units[..m], units[m]);
      assert RoundRobin(units, n) == prev[m % n := prev[m % n] + [units[m]]];
      assert units == units[..m] + [units[m]];
    }
  }

  /** Pushing u onto one column adds exactly u to the formation's units. */
  lemma PushKeepsUnits<T>(prev: seq<seq<T>>, i: nat, pre: seq<T>, u: T)
    requires i < |prev| && multiset(Concat(prev)) == multiset(pre)
    ensures multiset(Concat(prev[i := prev[i] + [u]])) == multiset(pre + [u])
  {
    var after := prev[i := prev[i] + [u]];
    ConcatUpdate(prev, i, prev[i] + [u]);
    assert multiset(prev[i] + [u]) == multiset(prev[i]) + multiset{u};
    assert multiset(pre + [u]) == multiset(pre) + multiset{u};
    MultisetCancel(multiset(Concat(after)), multiset(pre + [u]), multiset(prev[i]));
  }

  lemma MultisetCancel<T>(a: multiset<T>, b: multiset<T>, c: multiset<T>)
    requires a + c == b + c
    ensures a == b
  {
    forall x ensures a[x] == b[x] {
      assert (a + c)[x] == (b + c)[x];
    }
  }

  /** The columns hold |units| units in all. */
  lemma RoundRobinCount<T>(units: seq<T>, n: nat)
    requires n > 0
    ensures |Concat(RoundRobin(units, n))| == |units|
  {
    RoundRobinTotal(units, n);
    assert |multiset(Concat(RoundRobin(units, n)))| == |Concat(RoundRobin(units, n))|;
    assert |multiset(units)| == |units|;
  }

  lemma {:induction false} EmptyColumnsConcat<T>(cols: seq<seq<T>>)
    requires forall c :: 0 <= c < |cols| ==> cols[c] == []
    ensures Concat(cols) == []
    decreases |cols|
  {
    if cols != [] {
      EmptyColumnsConcat(cols[..|cols| - 1]);
    }
  }

  /** Column lengths differ by at most one, lower-index columns being the longer. */
  lemma RoundRobinBalanced<T>(units: seq<T>, n: nat, c1: nat, c2: nat)
    requires n > 0 && c1 < c2 < n
    ensures |RoundRobin(units, n)[c2]| <= |RoundRobin(units, n)[c1]| <= |RoundRobin(units, n)[c2]| + 1
  {
    RoundRobinLength(units, n, c1);
    RoundRobinLength(units, n, c2);
  }

  /** With at least as many units as columns, no column is empty. */
  lemma RoundRobinNoEmptyColumn<T>(units: seq<T>, n: nat, c: nat)
    requires 0 < n <= |units| && c < n
    ensures |RoundRobin(units, n)[c]| >= 1
  {
    RoundRobinLength(units, n, c);
    DivMono(n, |units|, n);
    DivModUnique(n, n, 1, 0);
  }

  /** Within a column, units keep the order in which they were pushed. */
  lemma RoundRobinKeepsOrder<T>(units: seq<T>, n: nat, c: nat, r1: nat, r2: nat)
    requires n > 0 && c < n && r1 < r2 < |RoundRobin(units, n)[c]|
    ensures r1 * n + c < r2 * n + c < |units|
    ensures RoundRobin(units, n)[c][r1] == units[r1 * n + c]
    ensures RoundRobin(units, n)[c][r2] == units[r2 * n + c]
  {
    RoundRobinAt(units, n, c, r1);
    RoundRobinAt(units, n, c, r2);
    MulMono(n, r1 + 1, r2);
    assert n * (r1 + 1) == n * r1 + n;
  }

  /** The push_back loop: each unit, in order, goes to the back of column i mod n. */
  method Distribute<T>(units: seq<T>, n: nat) returns (cols: seq<seq<T>>)
    requires n > 0
    ensures cols == RoundRobin(units, n)
  {
    cols := seq(n, _ => []);
    for i := 0 to |units|
      invariant cols == RoundRobin(units[..i], n)
    {
      assert units[..i + 1][..i] == units[..i];
      cols := cols[i % n := cols[i % n] + [units[i]]];
    }
    assert units[..|units|] == units;
  }
}
