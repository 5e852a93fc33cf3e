/** Options, machine words and the counting facts behind quorum arguments. */
module Common {

  datatype Option<+T> = None | Some(value: T)

  const U16_LIMIT := 0x1_0000
  const U64_LIMIT := 0x1_0000_0000_0000_0000

  type u64 = x: int | 0 <= x < U64_LIMIT

  /** Every member of `a` is a node number below `n`. */
  ghost predicate Below(a: set<nat>, n: nat) {
    forall x | x in a :: x < n
  }

  lemma {:induction false} BelowSize(a: set<nat>, n: nat)
    requires Below(a, n)
    ensures |a| <= n
  {
    if n == 0 {
      assert a == {};
    } else {
      BelowSize(a - {n - 1}, n - 1);
    }
  }

  /** Two sets of node numbers share at least |a| + |b| - n members. */
  lemma Overlap(a: set<nat>, b: set<nat>, n: nat)
    requires Below(a, n) && Below(b, n)
    ensures |a * b| >= |a| + |b| - n
  {
    BelowSize(a + b, n);
  }

  /** A set with more than one member has one that differs from `x`. */
  lemma OtherMember(a: set<nat>, x: nat) returns (y: nat)
    requires |a| >= 2
    ensures y in a && y != x
  {
    if a <= {x} {
      SubsetSize(a, {x});
    }
    y :| y in a && y != x;
  }

  lemma {:induction false} SubsetSize<T>(a: set<T>, b: set<T>)
    requires a <= b
    ensures |a| <= |b|
  {
    assert b == a + (b - a);
  }

  /** The m-th voter for a collector: every node but the collector itself. */
  function Voter(collector: nat, m: nat): nat {
    if m < collector then m else m + 1
  }

  lemma SmallMod(x: nat, n: nat)
    requires x < n
    ensures x % n == x
  {
  }

  lemma NextMod(v: nat, n: nat)
    requires n > 1
    ensures (v + 1) % n == if v % n + 1 < n then v % n + 1 else 0
  {
    var q, r := v / n, v % n;
    assert v == q * n + r;
    if r + 1 < n {
      ModIs(v + 1, q, r + 1, n);
    } else {
      assert (q + 1) * n == q * n + n;
      ModIs(v + 1, q + 1, 0, n);
    }
  }

  lemma ModIs(x: nat, q: nat, r: nat, n: nat)
    requires r < n && x == q * n + r
    ensures x % n == r
  {
    var q1, r1 := x / n, x % n;
    assert x == q1 * n + r1;
    if q1 > q {
      TimesMore(q, q1, n);
    } else if q1 < q {
      TimesMore(q1, q, n);
    }
  }

  lemma TimesMore(a: nat, b: nat, n: nat)
    requires a < b
    ensures a * n + n <= b * n
  {
    var d := b - a - 1;
    assert b == a + 1 + d && b * n == a * n + n + d * n;
  }
}
