/** Remainders on division by a positive number. */
module Residues {
  lemma AtLeast(a: int, n: int)
    requires a >= 1 && n > 0
    ensures a * n >= n
  {
  }

  lemma Distributes(a: int, b: int, n: int)
    ensures (a - b) * n == a * n - b * n
  {
  }

  /** A number has one quotient and one remainder. */
  lemma Unique(q: int, r: int, s: int, t: int, n: int)
    requires 0 <= r < n && 0 <= t < n && q * n + r == s * n + t
    ensures q == s && r == t
  {
    Distributes(q, s, n);
    Distributes(s, q, n);
    if q > s {
      AtLeast(q - s, n);
    } else if q < s {
      AtLeast(s - q, n);
    }
  }

  lemma ResidueOf(q: nat, p: nat, n: nat)
    requires p < n
    ensures (q * n + p) % n == p
  {
    var x := q * n + p;
    Split(x, n);
    Unique(q, p, x / n, x % n, n);
  }

  lemma Split(x: int, n: nat)
    requires n > 0
    ensures x == (x / n) * n + x % n && 0 <= x % n < n
  {
  }

  lemma NextResidue(k: nat, n: nat)
    requires n > 0
    ensures (k + 1) % n == if k % n + 1 == n then 0 else k % n + 1
  {
    var q, p := k / n, k % n;
    Split(k, n);
    Distributes(q + 1, q, n);
    if p + 1 == n {
      ResidueOf(q + 1, 0, n);
    } else {
      ResidueOf(q, p + 1, n);
    }
  }

  /** Numbers less than n apart have different remainders. */
  lemma CloseResidues(k: nat, l: nat, n: nat)
    requires n > 0 && k < l < k + n
    ensures k % n != l % n
  {
    Split(k, n);
    Split(l, n);
    Distributes(l / n, k / n, n);
    if k % n == l % n {
      if l / n > k / n {
        AtLeast(l / n - k / n, n);
      } else if l / n < k / n {
        Distributes(k / n, l / n, n);
        AtLeast(k / n - l / n, n);
      }
    }
  }

  /** Every remainder occurs among n numbers in a row. */
  lemma Within(start: nat, j: nat, n: nat) returns (k: nat)
    requires j < n
    ensures start <= k < start + n && k % n == j
  {
    var q, p := start / n, start % n;
    Split(start, n);
    Distributes(q + 1, q, n);
    if p <= j {
      ResidueOf(q, j, n);
      k := q * n + j;
    } else {
      ResidueOf(q + 1, j, n);
      k := (q + 1) * n + j;
    }
  }

  lemma Periodic(k: nat, n: nat)
    requires n > 0
    ensures (k + n) % n == k % n
  {
    Split(k, n);
    Distributes(k / n + 1, k / n, n);
    ResidueOf(k / n + 1, k % n, n);
  }
}
