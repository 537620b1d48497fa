/** Index arithmetic of a circular buffer of `n` slots: the k-th record ever written
    lives in slot `k % n`, and the distance between two cursors wraps around. */
module Ring {

  /** Slot a cursor reaches from `start` after `steps` single-step advances. */
  function Slot(start: int, steps: int, n: int): (s: int)
    requires n > 0
    ensures 0 <= s < n
  {
    (start + steps) % n
  }

  /** The source's single-step advance: increment, and go back to 0 at the end. */
  function Next(i: int, n: int): (j: int)
    requires 0 <= i < n
    ensures 0 <= j < n
    ensures j == Slot(i, 1, n)
  {
    if i + 1 == n then 0 else i + 1
  }

  /** Number of records between a flush cursor `from` and a write cursor `to`,
      counted forwards with wraparound. */
  function Gap(from: int, to: int, n: int): (d: int)
    requires n > 0
    ensures 0 <= d < n
  {
    (to - from) % n
  }

  lemma MulBounds(k: int, n: int)
    requires n > 0
    ensures k >= 1 ==> k * n >= n
    ensures k <= -1 ==> k * n <= -n
  {
  }

  /** Euclidean remainder is unique: `q * n + r` leaves remainder `r`. */
  lemma ModOfSum(q: int, r: int, n: int)
    requires n > 0 && 0 <= r < n
    ensures (q * n + r) % n == r
  {
    var x := q * n + r;
    var k := q - x / n;
    assert x == (x / n) * n + x % n;
    assert k * n == x % n - r;
    MulBounds(k, n);
  }

  /** Advancing slot `k % n` by one step reaches slot `(k + 1) % n`. */
  lemma {:induction false} SlotStep(k: int, n: int)
    requires n > 0
    ensures Next(k % n, n) == (k + 1) % n
  {
    var q, r := k / n, k % n;
    assert k == q * n + r;
    if r + 1 == n {
      assert k + 1 == (q + 1) * n + 0;
      ModOfSum(q + 1, 0, n);
    } else {
      assert k + 1 == q * n + (r + 1);
      ModOfSum(q, r + 1, n);
    }
  }

  /** Slot arithmetic only depends on the start modulo n. */
  lemma {:induction false} SlotOfReduced(start: int, steps: int, n: int)
    requires n > 0
    ensures Slot(start % n, steps, n) == Slot(start, steps, n)
  {
    var q, r := start / n, start % n;
    assert start == q * n + r;
    var q2, r2 := (r + steps) / n, (r + steps) % n;
    assert r + steps == q2 * n + r2;
    assert start + steps == (q + q2) * n + r2;
    ModOfSum(q + q2, r2, n);
  }

  /** Two positions fewer than n apart never share a slot. */
  lemma {:induction false} DistinctSlots(a: int, b: int, n: int)
    requires n > 0 && a < b < a + n
    ensures a % n != b % n
  {
    var q, r := a / n, a % n;
    assert a == q * n + r;
    if r + (b - a) < n {
      assert b == q * n + (r + (b - a));
      ModOfSum(q, r + (b - a), n);
    } else {
      assert b == (q + 1) * n + (r + (b - a) - n);
      ModOfSum(q + 1, r + (b - a) - n, n);
    }
  }

  /** A non-zero difference smaller than n in size is not a multiple of n. */
  lemma {:induction false} SmallNonzeroMod(x: int, n: int)
    requires n > 0 && -n < x < n && x != 0
    ensures x % n != 0
  {
    if x > 0 {
      assert x == 0 * n + x;
      ModOfSum(0, x, n);
    } else {
      assert x == (-1) * n + (x + n);
      ModOfSum(-1, x + n, n);
    }
  }

  /** The cursor distance the flush reports is the number of records written since
      the last flush, modulo n: exact while fewer than n are pending, and 0 (the
      cursors coincide) after exactly n. */
  lemma {:induction false} GapCountsPending(flushed: int, written: int, n: int)
    requires n > 0 && flushed <= written
    ensures Gap(flushed % n, written % n, n) == (written - flushed) % n
    ensures written - flushed < n ==> Gap(flushed % n, written % n, n) == written - flushed
    ensures written - flushed == n ==> Gap(flushed % n, written % n, n) == 0
  {
    var qf, rf := flushed / n, flushed % n;
    var qw, rw := written / n, written % n;
    assert flushed == qf * n + rf;
    assert written == qw * n + rw;
    var qd, rd := (rw - rf) / n, (rw - rf) % n;
    assert rw - rf == qd * n + rd;
    assert written - flushed == (qw - qf + qd) * n + rd;
    ModOfSum(qw - qf + qd, rd, n);
    if written - flushed < n {
      assert written - flushed == 0 * n + (written - flushed);
      ModOfSum(0, written - flushed, n);
    }
    if written - flushed == n {
      assert written - flushed == 1 * n + 0;
      ModOfSum(1, 0, n);
    }
  }

  /** The source's two-branch count of the slots from `from` forwards to `to`
      is the wrapping distance. */
  lemma {:induction false} GapByCases(from: int, to: int, n: int)
    requires n > 0 && 0 <= from < n && 0 <= to < n
    ensures from != to ==> Gap(from, to, n) == if to > from then to - from else n - from + to
    ensures Gap(from, to, n) == 0 <==> from == to
  {
    if to >= from {
      assert to - from == 0 * n + (to - from);
      ModOfSum(0, to - from, n);
    } else {
      assert to - from == (-1) * n + (n - from + to);
      ModOfSum(-1, n - from + to, n);
    }
  }

  /** Moving a flush cursor forward by the gap lands on the write cursor, and the
      gap between two distinct cursors is between 1 and n - 1. */
  lemma {:induction false} GapCloses(from: int, to: int, n: int)
    requires n > 0 && 0 <= from < n && 0 <= to < n
    ensures Slot(from, Gap(from, to, n), n) == to
    ensures from != to ==> 1 <= Gap(from, to, n) <= n - 1
  {
    var d := Gap(from, to, n);
    var q := (to - from) / n;
    assert to - from == q * n + d;
    assert from + d == (-q) * n + to;
    ModOfSum(-q, to, n);
    if from != to {
      SmallNonzeroMod(to - from, n);
    }
  }
}
