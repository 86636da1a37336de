/** How often consecutive or every-other ticket of a counter falls into an interval of residues. */
module Tickets {
  /** The remainder by repeated subtraction, which keeps the counting below linear. */
  function Rem(x: nat, m: nat): (r: nat)
    requires m > 0
    ensures r < m
    decreases x
  {
    if x < m then x else Rem(x - m, m)
  }

  lemma {:induction false} RemIsMod(x: nat, m: nat)
    requires m > 0
    ensures Rem(x, m) == x % m
    decreases x
  {
    if x < m {
      UniqueRemainder(x, m, 0, x);
    } else {
      RemIsMod(x - m, m);
      AddModulus(x - m, m);
    }
  }

  lemma {:induction false} AddModulus(x: nat, m: nat)
    requires m > 0
    ensures (x + m) % m == x % m
  {
    var q, r := x / m, x % m;
    assert x + m == m * (q + 1) + r;
    UniqueRemainder(x + m, m, q + 1, r);
  }

  lemma {:induction false} UniqueRemainder(x: nat, m: nat, q: nat, r: nat)
    requires m > 0 && r < m && x == m * q + r
    ensures x % m == r
  {
    var q', r' := x / m, x % m;
    assert m * q' + r' == m * q + r;
    assert q' < q ==> m * q >= m * (q' + 1);
    assert q < q' ==> m * q' >= m * (q + 1);
  }

  predicate Hit(x: nat, m: nat, lo: nat, hi: nat)
    requires m > 0
  {
    lo <= Rem(x, m) < hi
  }

  /** How many of the `n` tickets `start`, `start + stride`, ... fall into `[lo, hi)` modulo `m`. */
  function Hits(start: nat, stride: nat, n: nat, m: nat, lo: nat, hi: nat): nat
    requires m > 0
    decreases n
  {
    if n == 0 then 0 else (if Hit(start, m, lo, hi) then 1 else 0) + Hits(start + stride, stride, n - 1, m, lo, hi)
  }

  lemma {:induction false} SplitHits(s: nat, d: nat, a: nat, b: nat, m: nat, lo: nat, hi: nat)
    requires m > 0
    ensures Hits(s, d, a + b, m, lo, hi) == Hits(s, d, a, m, lo, hi) + Hits(s + d * a, d, b, m, lo, hi)
    decreases a
  {
    if a > 0 {
      SplitHits(s + d, d, a - 1, b, m, lo, hi);
      assert s + d + d * (a - 1) == s + d * a;
    }
  }

  lemma {:induction false} ShiftByModulus(s: nat, d: nat, n: nat, m: nat, lo: nat, hi: nat)
    requires m > 0
    ensures Hits(s + m, d, n, m, lo, hi) == Hits(s, d, n, m, lo, hi)
    decreases n
  {
    if n > 0 {
      ShiftByModulus(s + d, d, n - 1, m, lo, hi);
      assert s + m + d == s + d + m;
    }
  }

  /** A window whose tickets span the modulus keeps its count when it slides by one ticket. */
  lemma {:induction false} Slide(s: nat, d: nat, n: nat, m: nat, lo: nat, hi: nat)
    requires m > 0 && n > 0 && d * n == m
    ensures Hits(s + d, d, n, m, lo, hi) == Hits(s, d, n, m, lo, hi)
  {
    SplitHits(s + d, d, n - 1, 1, m, lo, hi);
    assert s + d + d * (n - 1) == s + m;
    assert Hits(s + m, d, 1, m, lo, hi) == Hits(s, d, 1, m, lo, hi);
  }

  lemma {:induction false} Ramp(j: nat, m: nat, lo: nat, hi: nat)
    requires m > 0 && lo <= hi <= m && j <= m
    ensures Hits(j, 1, m - j, m, lo, hi) == if hi <= j then 0 else if lo <= j then hi - j else hi - lo
    decreases m - j
  {
    if j < m {
      Ramp(j + 1, m, lo, hi);
    }
  }

  /** `m` consecutive tickets meet each residue once. */
  lemma {:induction false} FullPeriod(s: nat, m: nat, lo: nat, hi: nat)
    requires m > 0 && lo <= hi <= m
    ensures Hits(s, 1, m, m, lo, hi) == hi - lo
    decreases s
  {
    if s == 0 {
      Ramp(0, m, lo, hi);
    } else {
      FullPeriod(s - 1, m, lo, hi);
      Slide(s - 1, 1, m, m, lo, hi);
    }
  }

  lemma {:induction false} Interleave(s: nat, n: nat, m: nat, lo: nat, hi: nat)
    requires m > 0
    ensures Hits(s, 1, n, m, lo, hi) == Hits(s, 2, (n + 1) / 2, m, lo, hi) + Hits(s + 1, 2, n / 2, m, lo, hi)
    decreases n
  {
    if n > 0 {
      Interleave(s + 1, n - 1, m, lo, hi);
      assert (n - 1 + 1) / 2 == n / 2 && (n + 1) / 2 - 1 == (n - 1) / 2;
    }
  }

  /** With an odd modulus, `m` tickets two apart also meet each residue once. */
  lemma {:induction false} OddPeriod(s: nat, m: nat, lo: nat, hi: nat)
    requires m % 2 == 1 && lo <= hi <= m
    ensures Hits(s, 2, m, m, lo, hi) == hi - lo
  {
    var h := m / 2;
    SplitHits(s, 2, h + 1, h, m, lo, hi);
    ShiftByModulus(s + 1, 2, h, m, lo, hi);
    assert s + 2 * (h + 1) == s + 1 + m;
    Interleave(s, m, m, lo, hi);
    FullPeriod(s, m, lo, hi);
  }

  /** With an even modulus, tickets two apart repeat after half of it. */
  lemma {:induction false} EvenPeriod(s: nat, m: nat, lo: nat, hi: nat)
    requires m > 0 && m % 2 == 0
    ensures Hits(s, 2, m, m, lo, hi) == 2 * Hits(s, 2, m / 2, m, lo, hi)
  {
    SplitHits(s, 2, m / 2, m / 2, m, lo, hi);
    ShiftByModulus(s, 2, m / 2, m, lo, hi);
  }

  lemma {:induction false} SubtractEven(x: nat, h: nat)
    requires 2 * h <= x
    ensures (x - 2 * h) % 2 == x % 2
  {
  }

  lemma {:induction false} ParityOfRemainder(x: nat, m: nat)
    requires m > 0 && m % 2 == 0
    ensures Rem(x, m) % 2 == x % 2
    decreases x
  {
    if x >= m {
      var h := m / 2;
      assert m == 2 * h;
      SubtractEven(x, h);
      ParityOfRemainder(x - m, m);
    }
  }

  lemma {:induction false} NextRemainder(x: nat, m: nat)
    requires m > 0 && m % 2 == 0 && x % 2 == 0
    ensures Rem(x + 1, m) == Rem(x, m) + 1
    decreases x
  {
    if x >= m { NextRemainder(x - m, m); assert x - m + 1 == x + 1 - m; }
  }

  lemma {:induction false} EvenAndOddAlike(s: nat, n: nat, m: nat, lo: nat, hi: nat)
    requires m > 0 && m % 2 == 0 && lo % 2 == 0 && hi % 2 == 0 && s % 2 == 0
    ensures Hits(s, 2, n, m, lo, hi) == Hits(s + 1, 2, n, m, lo, hi)
    decreases n
  {
    if n > 0 {
      NextRemainder(s, m);
      ParityOfRemainder(s, m);
      EvenAndOddAlike(s + 2, n - 1, m, lo, hi);
      assert s + 1 + 2 == s + 2 + 1;
    }
  }

  /** Between even bounds, every other ticket meets half of the residues, from any start. */
  lemma {:induction false} EvenBoundsHalf(s: nat, m: nat, lo: nat, hi: nat)
    requires m > 0 && m % 2 == 0 && lo % 2 == 0 && hi % 2 == 0 && lo <= hi <= m
    ensures 2 * Hits(s, 2, m / 2, m, lo, hi) == hi - lo
  {
    Interleave(s, m, m, lo, hi);
    assert (m + 1) / 2 == m / 2;
    FullPeriod(s, m, lo, hi);
    if s % 2 == 0 {
      EvenAndOddAlike(s, m / 2, m, lo, hi);
    } else {
      EvenAndOddAlike(s + 1, m / 2, m, lo, hi);
      Slide(s, 2, m / 2, m, lo, hi);
      assert s + 1 + 1 == s + 2;
    }
  }

  lemma {:induction false} WrongParityNeverHits(s: nat, n: nat, m: nat, j: nat)
    requires m > 0 && m % 2 == 0 && j % 2 != s % 2
    ensures Hits(s, 2, n, m, j, j + 1) == 0
    decreases n
  {
    if n > 0 {
      ParityOfRemainder(s, m);
      WrongParityNeverHits(s + 2, n - 1, m, j);
    }
  }

  /** With an even modulus, `m` tickets two apart meet the residues of one parity twice and the others never. */
  lemma {:induction false} EvenPeriodSingle(s: nat, m: nat, j: nat)
    requires m > 0 && m % 2 == 0 && j < m
    ensures Hits(s, 2, m, m, j, j + 1) == if j % 2 == s % 2 then 2 else 0
  {
    EvenPeriod(s, m, j, j + 1);
    if j % 2 == s % 2 {
      Interleave(s, m, m, j, j + 1);
      assert (m + 1) / 2 == m / 2;
      FullPeriod(s, m, j, j + 1);
      WrongParityNeverHits(s + 1, m / 2, m, j);
    } else {
      WrongParityNeverHits(s, m / 2, m, j);
    }
  }

  lemma {:induction false} LessThanPeriod(s: nat, n: nat, m: nat, lo: nat, hi: nat)
    requires m > 0 && lo <= hi <= m && n <= m
    ensures Hits(s, 1, n, m, lo, hi) <= hi - lo
  {
    FullPeriod(s, m, lo, hi);
    SplitHits(s, 1, n, m - n, m, lo, hi);
  }

  lemma {:induction false} OneMorePeriod(s: nat, n: nat, m: nat, lo: nat, hi: nat)
    requires m > 0 && lo <= hi <= m
    ensures Hits(s, 1, n + m, m, lo, hi) == Hits(s, 1, n, m, lo, hi) + (hi - lo)
  {
    SplitHits(s, 1, n, m, m, lo, hi);
    FullPeriod(s + n, m, lo, hi);
  }

  /** `n` tickets, of which `q` whole periods: between `q` and, if more are left, `q + 1` times the interval's width. */
  lemma {:induction false} PartialPeriods(s: nat, n: nat, q: nat, m: nat, lo: nat, hi: nat)
    requires m > 0 && lo <= hi <= m && q * m <= n < q * m + m
    ensures var w := hi - lo;
      q * w <= Hits(s, 1, n, m, lo, hi) <= (if n == q * m then q else q + 1) * w
    decreases q
  {
    var w := hi - lo;
    if q == 0 {
      LessThanPeriod(s, n, m, lo, hi);
    } else {
      Distribute(q, m);
      Distribute(q, w);
      Distribute(q + 1, w);
      PartialPeriods(s, n - m, q - 1, m, lo, hi);
      OneMorePeriod(s, n - m, m, lo, hi);
    }
  }

  // ---------- tickets that start over at a multiple of the modulus, or not ----------

  lemma {:induction false} ShiftByModuli(s: nat, d: nat, q: nat, n: nat, m: nat, lo: nat, hi: nat)
    requires m > 0
    ensures Hits(s + q * m, d, n, m, lo, hi) == Hits(s, d, n, m, lo, hi)
    decreases q
  {
    if q > 0 {
      ShiftByModuli(s, d, q - 1, n, m, lo, hi);
      Distribute(q, m);
      ShiftByModulus(s + (q - 1) * m, d, n, m, lo, hi);
    }
  }

  lemma {:induction false} AtMostAll(s: nat, n: nat, m: nat, lo: nat, hi: nat)
    requires m > 0
    ensures Hits(s, 1, n, m, lo, hi) <= n
    decreases n
  {
    if n > 0 { AtMostAll(s + 1, n - 1, m, lo, hi); }
  }

  lemma {:induction false} Successor(x: nat, m: nat)
    requires m > 0
    ensures Rem(x + 1, m) == if Rem(x, m) + 1 == m then 0 else Rem(x, m) + 1
    decreases x
  {
    if x >= m {
      Successor(x - m, m);
      assert x + 1 - m == x - m + 1;
    } else if x + 1 == m {
      assert Rem(m, m) == Rem(0, m);
    }
  }

  /** Consecutive tickets that all fall into `[lo, m)` do not pass the modulus. */
  lemma {:induction false} AllHit(s: nat, n: nat, m: nat, lo: nat)
    requires 0 < lo < m && n > 0 && Hits(s, 1, n, m, lo, m) == n
    ensures lo <= Rem(s, m) <= m - n
    decreases n
  {
    AtMostAll(s + 1, n - 1, m, lo, m);
    if n > 1 {
      AllHit(s + 1, n - 1, m, lo);
      Successor(s, m);
    }
  }

  lemma {:induction false} UpToModulus(s: nat, d: nat, m: nat)
    requires m > 0 && Rem(s, m) + d == m
    ensures Rem(s + d, m) == 0
    decreases s
  {
    if s >= m {
      UpToModulus(s - m, d, m);
      assert s + d - m == s - m + d;
    } else {
      assert Rem(m, m) == Rem(0, m);
    }
  }

  /** The last `w` tickets before `end` fill the top `w` residues only if `end` is a multiple of the modulus. */
  lemma {:induction false} TopFilled(end: nat, w: nat, m: nat)
    requires 0 < w < m && w <= end && Hits(end - w, 1, w, m, m - w, m) == w
    ensures end % m == 0
  {
    AllHit(end - w, w, m, m - w);
    UpToModulus(end - w, w, m);
    RemIsMod(end, m);
  }

  /** `n` consecutive tickets from `s` that start over at zero when `end` is due. */
  function RestartHits(s: nat, end: nat, n: nat, m: nat, lo: nat, hi: nat): nat
    requires m > 0 && s <= end <= s + n
  {
    Hits(s, 1, end - s, m, lo, hi) + Hits(0, 1, n - (end - s), m, lo, hi)
  }

  lemma {:induction false} RestartStep(s: nat, end: nat, n: nat, m: nat, lo: nat, hi: nat)
    requires m > 0 && s < end <= s + n
    ensures RestartHits(s, end, n, m, lo, hi) == (if Hit(s, m, lo, hi) then 1 else 0) +
      if s + 1 == end then Hits(0, 1, n - 1, m, lo, hi) else RestartHits(s + 1, end, n - 1, m, lo, hi)
  {
  }

  /** Every other ticket, starting over at `p` when `end + p` is due: as if it had not, if `end` is a multiple. */
  lemma {:induction false} RestartByTwo(end: nat, p: nat, k: nat, n: nat, m: nat, lo: nat, hi: nat)
    requires m > 0 && end % m == 0 && k <= n && 2 * k <= end
    ensures Hits(end - 2 * k + p, 2, k, m, lo, hi) + Hits(p, 2, n - k, m, lo, hi) ==
      Hits(end - 2 * k + p, 2, n, m, lo, hi)
  {
    var q := Multiple(end, m);
    var s := end - 2 * k + p;
    SplitHits(s, 2, k, n - k, m, lo, hi);
    assert s + 2 * k == p + q * m;
    ShiftByModuli(p, 2, q, n - k, m, lo, hi);
  }

  /**
   If `[lo, m)` is met alike from `y` and from `y + d`, for `y` zero and for `y` just below `m`, then `m` divides `d`.
   */
  lemma {:induction false} ShiftKeepsTop(d: nat, m: nat, lo: nat)
    requires 0 < lo < m
    requires Hit(d, m, lo, m) == Hit(0, m, lo, m) && Hit(d + (m - 1), m, lo, m) == Hit(m - 1, m, lo, m)
    ensures d % m == 0
  {
    Successor(d + (m - 1), m);
    assert Rem(d + m, m) == Rem(d, m);
    RemIsMod(d, m);
  }

  lemma {:induction false} Multiple(end: nat, m: nat) returns (q: nat)
    requires m > 0 && end % m == 0
    ensures end == q * m
  {
    q := end / m;
  }

  /** A count that starts over at a multiple of the modulus still meets each residue once. */
  lemma {:induction false} RestartAtMultiple(end: nat, k: nat, m: nat, lo: nat, hi: nat)
    requires m > 0 && end % m == 0 && k <= m && k <= end && lo <= hi <= m
    ensures Hits(end - k, 1, k, m, lo, hi) + Hits(0, 1, m - k, m, lo, hi) == hi - lo
  {
    var q := Multiple(end, m);
    RestartAfter(end, q, k, m, lo, hi);
  }

  lemma {:induction false} RestartAfter(end: nat, q: nat, k: nat, m: nat, lo: nat, hi: nat)
    requires m > 0 && end == q * m && k <= m && k <= end && lo <= hi <= m
    ensures Hits(end - k, 1, k, m, lo, hi) + Hits(0, 1, m - k, m, lo, hi) == hi - lo
  {
    FullPeriod(end - k, m, lo, hi);
    SplitHits(end - k, 1, k, m - k, m, lo, hi);
    ShiftByModuli(0, 1, q, m - k, m, lo, hi);
  }

  lemma {:induction false} Distribute(q: nat, m: nat)
    requires q > 0
    ensures q * m == (q - 1) * m + m
  {
  }
}
