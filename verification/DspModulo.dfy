/** The few facts about positions on a ring of n slots that circular buffers need. */
module Modulo {
  import opened Arithmetic

  /** Stepping back c slots from t, on the ring and on the line. */
  lemma StepBack(t: int, n: int, c: int)
    requires n >= 1 && 0 <= c < n
    ensures (t % n - c + n) % n == (t - c) % n
    ensures c > 0 ==> (t - c) % n != t % n
  {
    var q, r := t / n, t % n;
    assert t == q * n + r;
    if c <= r {
      QuotientUnique(t - c, n, q, r - c);
      QuotientUnique(r - c + n, n, 1, r - c);
    } else {
      assert t - c == (q - 1) * n + (r - c + n);
      QuotientUnique(t - c, n, q - 1, r - c + n);
      QuotientUnique(r - c + n, n, 0, r - c + n);
    }
  }

  lemma StepForward(t: int, n: int)
    requires n >= 1
    ensures (t % n + 1) % n == (t + 1) % n
  {
    var q, r := t / n, t % n;
    assert t == q * n + r;
    if r + 1 < n {
      QuotientUnique(t + 1, n, q, r + 1);
      QuotientUnique(r + 1, n, 0, r + 1);
    } else {
      assert t + 1 == (q + 1) * n + 0;
      QuotientUnique(t + 1, n, q + 1, 0);
      QuotientUnique(r + 1, n, 1, 0);
    }
  }
}
