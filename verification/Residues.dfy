/** Facts about division that the cyclic orders need. */
module Residues {

  lemma MultipleGrows(n: nat, x: int)
    requires n > 0
    ensures x >= 1 ==> n * x >= n
    ensures x <= -1 ==> n * x <= 0 - n
  {
  }

  lemma Quotient(i: nat, n: nat, q: nat, r: nat)
    requires r < n && i == n * q + r
    ensures i / n == q && i % n == r
  {
    var q', r' := i / n, i % n;
    assert i == n * q' + r';
    assert n * (q' - q) == r - r';
    MultipleGrows(n, q' - q);
  }

  lemma SameResidue(s: nat, a: nat, b: nat, n: nat)
    requires a < b < a + n
    ensures (s + a) % n != (s + b) % n
  {
    var p, q := (s + a) / n, (s + b) / n;
    assert s + a == n * p + (s + a) % n && s + b == n * q + (s + b) % n;
    assert n * (q - p) == (b - a) - ((s + b) % n - (s + a) % n);
    MultipleGrows(n, q - p);
  }

  lemma NextResidue(i: nat, n: nat)
    requires n > 0
    ensures (i + 1) % n == if i % n == n - 1 then 0 else i % n + 1
  {
    var q, r := i / n, i % n;
    assert i == n * q + r;
    if r == n - 1 {
      assert i + 1 == n * (q + 1) + 0;
      Quotient(i + 1, n, q + 1, 0);
    } else {
      Quotient(i + 1, n, q, r + 1);
    }
  }

  /** Going around from `s` reaches every residue within one round. */
  lemma Reaches(s: nat, i: nat, n: nat) returns (k: nat)
    requires i < n
    ensures k < n && (s + k) % n == i
  {
    var q, r := s / n, s % n;
    assert s == n * q + r;
    if i >= r {
      k := i - r;
      Quotient(s + k, n, q, i);
    } else {
      k := i + n - r;
      assert s + k == n * (q + 1) + i;
      Quotient(s + k, n, q + 1, i);
    }
  }
}
