/** Ring buffers under counters that wrap: kernel/pipe.c and kernel/virtio_disk.c index a ring of n slots with a
    counter that is kept modulo a multiple of n. */
module Rings {
  /** Counters less than n apart differ modulo n. */
  lemma SlotsApart(j: nat, k: nat, n: nat)
    requires 0 < n && j < k < j + n
    ensures j % n != k % n
  {
    var q := k / n - j / n;
    assert k - j == n * q + (k % n - j % n);
    assert q >= 1 ==> n * q >= n;
    assert q <= 0 ==> n * q <= 0;
  }

  lemma SameSlot(r: nat, n: nat, t: nat)
    requires 0 < n
    ensures (n * t + r) % n == r % n
  {
    var q: int := t - (n * t + r) / n + r / n;
    assert (n * t + r) % n - r % n == n * q;
    assert q >= 1 ==> n * q >= n;
    assert q <= -1 ==> n * q <= -(n as int);
  }

  /** The slot of a counter does not move when the counter wraps. */
  lemma SlotOf(k: nat, n: nat, c: nat, w: nat)
    requires 0 < n && 0 < w == n * c
    ensures k % w % n == k % n
  {
    var q, r := k / w, k % w;
    assert k == n * (c * q) + r by {
      assert k == w * q + r;
      Assoc(n, c, q);
    }
    SameSlot(r, n, c * q);
  }

  lemma Assoc(n: nat, c: nat, q: nat)
    ensures (n * c) * q == n * (c * q)
  {
  }

  /** A wrapped counter stepped and wrapped is the next one wrapped. */
  lemma NextOf(k: nat, w: nat)
    requires 0 < w
    ensures (k % w + 1) % w == (k + 1) % w
  {
    assert k + 1 == w * (k / w) + (k % w + 1);
    SameSlot(k % w + 1, w, k / w);
  }

  lemma Wrapped(k: nat, n: nat, w: nat)
    requires 0 < n && 0 < w == n * (w / n)
    ensures k % w % n == k % n && (k % w + 1) % w == (k + 1) % w
  {
    SlotOf(k, n, w / n, w);
    NextOf(k, w);
  }
}
