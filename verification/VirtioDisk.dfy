/** The split virtqueue of kernel/virtio_disk.c.  Driver methods run between two operations on vdisk_lock; the
    device takes and completes requests in between, in any order, each once.  Everything keeps `Valid`. */
module VirtioDisk {
  import Rings

  const NUM := 8
  /** Ring indices are 16-bit. */
  const WRAP := 0x1_0000

  // ----- counting descriptors

  function Count(s: seq<bool>): (n: nat)
    ensures n <= |s|
  {
    if s == [] then 0 else Count(s[..|s| - 1]) + (if s[|s| - 1] then 1 else 0)
  }

  lemma {:induction false} CountSet(s: seq<bool>, i: nat, v: bool)
    requires i < |s| && s[i] != v
    ensures Count(s[i := v]) == Count(s) + (if v then 1 else -1)
  {
    var n := |s| - 1;
    if i == n {
      assert s[i := v][..n] == s[..n];
    } else {
      CountSet(s[..n], i, v);
      assert s[i := v][..n] == s[..n][i := v];
    }
  }

  lemma {:induction false} CountNone(s: seq<bool>)
    requires forall i :: 0 <= i < |s| ==> !s[i]
    ensures Count(s) == 0
  {
    if s != [] {
      CountNone(s[..|s| - 1]);
    }
  }

  /** Distinct members of a set are no more than it has. */
  lemma {:induction false} FitsIn(a: seq<nat>, s: set<nat>)
    requires (forall i :: 0 <= i < |a| ==> a[i] in s) && (forall i, j :: 0 <= i < j < |a| ==> a[i] != a[j])
    ensures |a| <= |s|
    decreases |a|
  {
    if a != [] {
      var n := |a| - 1;
      FitsIn(a[..n], s - {a[n]});
    }
  }

  // ----- ring indices

  lemma IndexGap(lo: nat, hi: nat)
    requires lo <= hi <= lo + NUM
    ensures lo % WRAP == hi % WRAP <==> lo == hi
  {
  }

  // ----- requests in flight

  /** Where a request is: the k-th entry of the available ring, with the device, the k-th of the used ring, or seen
      by the interrupt handler. */
  datatype Phase = Posted(k: nat) | AtDevice | Used(k: nat) | Handled

  /** The chain of three descriptors head, mid, last that carries buffer b. */
  datatype Request = Request(b: nat, mid: nat, last: nat, phase: Phase)

  /** `free`, `linked` (VRING_DESC_F_NEXT) and `next` describe the descriptors, `buf` is info[].b, `busy` holds the
      buffers with b->disk == 1. */
  datatype Queue = Queue(free: seq<bool>, linked: seq<bool>, next: seq<nat>, buf: map<nat, nat>, busy: set<nat>,
                         avail: seq<nat>, availIdx: nat, used: seq<nat>, usedIdx: nat, seen: nat)

  /** Beside it: the requests in flight by head, which of them each descriptor belongs to, and everything ever put in
      the two rings with how far the device and the driver have read. */
  datatype Trace = Trace(reqs: map<nat, Request>, of: map<nat, nat>, posted: seq<nat>, taken: nat, done: seq<nat>,
                         handled: nat)

  /** Descriptor i is free and blank, or in exactly one request. */
  ghost predicate DescOk(q: Queue, t: Trace, i: nat)
    requires i < NUM && |q.free| == |q.linked| == |q.next| == NUM
  {
    && (q.free[i] ==> !q.linked[i] && q.next[i] == 0 && i !in t.of)
    && (!q.free[i] ==>
          i in t.of && t.of[i] in t.reqs && (i == t.of[i] || i == t.reqs[t.of[i]].mid || i == t.reqs[t.of[i]].last))
  }

  /** Descriptors h, m and l are in use as the chain of request h. */
  ghost predicate ChainOk(q: Queue, of: map<nat, nat>, h: nat, m: nat, l: nat)
    requires |q.free| == |q.linked| == |q.next| == NUM
  {
    && h < NUM && m < NUM && l < NUM && h != m && h != l && m != l
    && h in of && m in of && l in of && of[h] == of[m] == of[l] == h
    && q.linked[h] && q.next[h] == m && q.linked[m] && q.next[m] == l && !q.linked[l]
    && !q.free[h] && !q.free[m] && !q.free[l]
  }

  /** The request is where its phase says. */
  ghost predicate PhaseOk(t: Trace, h: nat, p: Phase)
  {
    && (p.Posted? ==> t.taken <= p.k < |t.posted| && t.posted[p.k] == h)
    && (p.Used? ==> t.handled <= p.k < |t.done| && t.done[p.k] == h)
  }

  ghost predicate ReqOk(q: Queue, t: Trace, h: nat)
    requires h in t.reqs && |q.free| == |q.linked| == |q.next| == NUM
  {
    var r := t.reqs[h];
    && ChainOk(q, t.of, h, r.mid, r.last) && PhaseOk(t, h, r.phase)
    && h in q.buf && q.buf[h] == r.b && (r.b in q.busy <==> !r.phase.Handled?)
  }

  /** A buffer is in one request at most. */
  ghost predicate OneReq(t: Trace, g: nat, h: nat)
    requires g in t.reqs && h in t.reqs
  {
    t.reqs[g].b == t.reqs[h].b ==> g == h
  }

  ghost predicate RingsOk(q: Queue, t: Trace)
  {
    && |q.avail| == |q.used| == NUM && t.taken <= |t.posted| && t.handled <= |t.done|
    && q.availIdx == |t.posted| % WRAP && q.usedIdx == |t.done| % WRAP && q.seen == t.handled % WRAP
    && (forall k {:trigger t.posted[k]} :: t.taken <= k < |t.posted| ==>
          t.posted[k] in t.reqs && t.reqs[t.posted[k]].phase == Posted(k) && q.avail[k % NUM] == t.posted[k])
    && (forall k {:trigger t.done[k]} :: t.handled <= k < |t.done| ==>
          t.done[k] in t.reqs && t.reqs[t.done[k]].phase == Used(k) && q.used[k % NUM] == t.done[k])
  }

  ghost predicate Valid(q: Queue, t: Trace)
  {
    && |q.free| == |q.linked| == |q.next| == NUM
    && (forall i :: 0 <= i < NUM ==> DescOk(q, t, i))
    && (forall h :: h in t.reqs ==> ReqOk(q, t, h))
    && (forall g, h :: g in t.reqs && h in t.reqs ==> OneReq(t, g, h))
    && Count(q.free) + 3 * |t.reqs| == NUM
    && RingsOk(q, t)
  }

  /** At most two requests are in flight, so neither ring ever holds more unread entries than fit. */
  lemma AtMostTwo(q: Queue, t: Trace)
    requires Valid(q, t)
    ensures |t.reqs| <= 2 && |t.posted| - t.taken <= 2 && |t.done| - t.handled <= 2
  {
    assert RingsOk(q, t);
    var a := t.posted[t.taken..];
    forall i | 0 <= i < |a| ensures a[i] in t.reqs.Keys && t.reqs[a[i]].phase == Posted(t.taken + i) {
      assert a[i] == t.posted[t.taken + i];
    }
    FitsIn(a, t.reqs.Keys);
    var d := t.done[t.handled..];
    forall i | 0 <= i < |d| ensures d[i] in t.reqs.Keys && t.reqs[d[i]].phase == Used(t.handled + i) {
      assert d[i] == t.done[t.handled + i];
    }
    FitsIn(d, t.reqs.Keys);
  }

  // ----- what the driver and the device do

  /** Three elements replaced. */
  function Set3<T>(s: seq<T>, h: nat, x: T, m: nat, y: T, l: nat, z: T): (r: seq<T>)
    requires h < |s| && m < |s| && l < |s| && h != m && h != l && m != l
    ensures |r| == |s| && r[h] == x && r[m] == y && r[l] == z
    ensures forall i :: 0 <= i < |s| && i != h && i != m && i != l ==> r[i] == s[i]
  {
    s[h := x][m := y][l := z]
  }

  /** virtio_disk_rw up to its wait: the three descriptors linked and the head posted. */
  function Post(q: Queue, b: nat, h: nat, m: nat, l: nat): (n: Queue)
    requires h < |q.linked| && m < |q.linked| && l < |q.linked| && h != m && h != l && m != l && |q.next| == |q.linked|
    requires |q.avail| == NUM
  {
    q.(linked := Set3(q.linked, h, true, m, true, l, false), next := Set3(q.next, h, m, m, l, l, 0),
          buf := q.buf[h := b], busy := q.busy + {b},
       avail := q.avail[q.availIdx % NUM := h], availIdx := (q.availIdx + 1) % WRAP)
  }

  function PostTrace(t: Trace, b: nat, h: nat, m: nat, l: nat): (n: Trace)
  {
    t.(reqs := t.reqs[h := Request(b, m, l, Posted(|t.posted|))], of := t.of[h := h][m := h][l := h],
          posted := t.posted + [h])
  }

  /** Three free descriptors marked as in use. */
  ghost predicate Taken3(q: Queue, n: Queue, h: nat, m: nat, l: nat)
  {
    && |q.free| == |q.linked| == |q.next| == NUM && h < NUM && m < NUM && l < NUM && h != m && h != l && m != l
    && q.free[h] && q.free[m] && q.free[l]
    && n == q.(free := Set3(q.free, h, false, m, false, l, false))
  }

  lemma PostDesc(q: Queue, q1: Queue, t: Trace, b: nat, h: nat, m: nat, l: nat, i: nat)
    requires Valid(q, t) && Taken3(q, q1, h, m, l) && i < NUM && |q1.avail| == NUM
    ensures DescOk(Post(q1, b, h, m, l), PostTrace(t, b, h, m, l), i)
  {
    hide Set3, RingsOk, OneReq, ReqOk;
    assert DescOk(q, t, i) && DescOk(q, t, h);
    NotHead(q, t, h);
  }

  /** A descriptor in use is none of the free ones. */
  lemma OldReqApart(q: Queue, t: Trace, g: nat, i: nat)
    requires Valid(q, t) && g in t.reqs && i < NUM && q.free[i]
    ensures i != g && i != t.reqs[g].mid && i != t.reqs[g].last
  {
    hide RingsOk, OneReq;
    assert ReqOk(q, t, g);
    assert ChainOk(q, t.of, g, t.reqs[g].mid, t.reqs[g].last);
  }

  lemma PostChainOld(q: Queue, q1: Queue, t: Trace, b: nat, h: nat, m: nat, l: nat, g: nat, x: nat, y: nat)
    requires Taken3(q, q1, h, m, l) && |q1.avail| == NUM && ChainOk(q, t.of, g, x, y)
    ensures ChainOk(Post(q1, b, h, m, l), PostTrace(t, b, h, m, l).of, g, x, y)
  {
    hide Set3;
  }

  lemma PostReqOld(q: Queue, q1: Queue, t: Trace, b: nat, h: nat, m: nat, l: nat, g: nat)
    requires Valid(q, t) && Taken3(q, q1, h, m, l) && g in t.reqs && t.reqs[g].b != b && |q1.avail| == NUM
    ensures g != h && ReqOk(Post(q1, b, h, m, l), PostTrace(t, b, h, m, l), g)
  {
    hide Set3, Valid, ChainOk, Count;
    OldReqApart(q, t, g, h);
    TwoReqs(q, t, g, g);
    PostChainOld(q, q1, t, b, h, m, l, g, t.reqs[g].mid, t.reqs[g].last);
    assert PhaseOk(t, g, t.reqs[g].phase);
    assert PhaseOk(PostTrace(t, b, h, m, l), g, t.reqs[g].phase);
  }

  lemma PostReqNew(q: Queue, q1: Queue, t: Trace, b: nat, h: nat, m: nat, l: nat)
    requires Valid(q, t) && Taken3(q, q1, h, m, l) && |q1.avail| == NUM && t.taken <= |t.posted|
    ensures ReqOk(Post(q1, b, h, m, l), PostTrace(t, b, h, m, l), h)
  {
    hide Set3, Valid;
    assert ChainOk(Post(q1, b, h, m, l), PostTrace(t, b, h, m, l).of, h, m, l);
    assert PhaseOk(PostTrace(t, b, h, m, l), h, Posted(|t.posted|));
  }

  lemma PostReqs(q: Queue, q1: Queue, t: Trace, b: nat, h: nat, m: nat, l: nat)
    requires Valid(q, t) && Taken3(q, q1, h, m, l) && (forall x :: x in t.reqs ==> t.reqs[x].b != b)
    requires |q1.avail| == NUM
    ensures var n, u := Post(q1, b, h, m, l), PostTrace(t, b, h, m, l); forall g :: g in u.reqs ==> ReqOk(n, u, g)
    ensures var u := PostTrace(t, b, h, m, l); forall g, x :: g in u.reqs && x in u.reqs ==> OneReq(u, g, x)
  {
    hide Valid, ReqOk, OneReq, Set3, Count;
    NotHead(q, t, h);
    RingsBound(q, t);
    var n, u := Post(q1, b, h, m, l), PostTrace(t, b, h, m, l);
    forall g | g in u.reqs ensures ReqOk(n, u, g) {
      if g == h {
        PostReqNew(q, q1, t, b, h, m, l);
      } else {
        PostReqOld(q, q1, t, b, h, m, l, g);
      }
    }
    forall g, x | g in u.reqs && x in u.reqs ensures OneReq(u, g, x) {
      PostOneReq(q, t, b, h, m, l, g, x);
    }
  }

  lemma PostOneReq(q: Queue, t: Trace, b: nat, h: nat, m: nat, l: nat, g: nat, x: nat)
    requires Valid(q, t) && (forall y :: y in t.reqs ==> t.reqs[y].b != b)
    requires var u := PostTrace(t, b, h, m, l); g in u.reqs && x in u.reqs
    ensures OneReq(PostTrace(t, b, h, m, l), g, x)
  {
    hide RingsOk, ReqOk, DescOk, Count;
    assert g in t.reqs && x in t.reqs ==> OneReq(t, g, x);
  }

  lemma PostRings(q: Queue, q1: Queue, t: Trace, b: nat, h: nat, m: nat, l: nat)
    requires Valid(q, t) && Taken3(q, q1, h, m, l)
    ensures |q1.avail| == NUM && RingsOk(Post(q1, b, h, m, l), PostTrace(t, b, h, m, l))
  {
    hide ReqOk, DescOk, OneReq, Set3, RingsOk;
    NotHead(q, t, h);
    assert RingsOk(q, t);
    AtMostTwo(q, t);
    PostRing(q, q1, t, b, h, m, l);
  }

  lemma PostRing(q: Queue, q1: Queue, t: Trace, b: nat, h: nat, m: nat, l: nat)
    requires RingsOk(q, t) && Taken3(q, q1, h, m, l) && h !in t.reqs && |t.posted| - t.taken <= 2
    ensures |q1.avail| == NUM && RingsOk(Post(q1, b, h, m, l), PostTrace(t, b, h, m, l))
  {
    hide Set3;
    var n, u := Post(q1, b, h, m, l), PostTrace(t, b, h, m, l);
    Rings.Wrapped(|t.posted|, NUM, WRAP);
    forall k {:trigger u.posted[k]} | u.taken <= k < |u.posted|
      ensures u.posted[k] in u.reqs && u.reqs[u.posted[k]].phase == Posted(k) && n.avail[k % NUM] == u.posted[k]
    {
      if k < |t.posted| {
        assert u.posted[k] == t.posted[k] && t.posted[k] in t.reqs;
        Rings.SlotsApart(k, |t.posted|, NUM);
      }
    }
    forall k {:trigger u.done[k]} | u.handled <= k < |u.done|
      ensures u.done[k] in u.reqs && u.reqs[u.done[k]].phase == Used(k) && n.used[k % NUM] == u.done[k]
    {
      assert t.done[k] in t.reqs;
    }
  }

  lemma Count3(s: seq<bool>, h: nat, m: nat, l: nat, v: bool)
    requires h < |s| && m < |s| && l < |s| && h != m && h != l && m != l && s[h] != v && s[m] != v && s[l] != v
    ensures Count(Set3(s, h, v, m, v, l, v)) == Count(s) + (if v then 3 else -3)
  {
    CountSet(s, h, v);
    CountSet(s[h := v], m, v);
    CountSet(s[h := v][m := v], l, v);
  }

  lemma OneMore(a: map<nat, Request>, b: map<nat, Request>, h: nat)
    requires h !in a && b.Keys == a.Keys + {h}
    ensures |b| == |a| + 1
  {
    assert |b.Keys| == |a.Keys| + 1;
  }

  lemma PostInv(q: Queue, q1: Queue, t: Trace, b: nat, h: nat, m: nat, l: nat)
    requires Valid(q, t) && Taken3(q, q1, h, m, l) && (forall x :: x in t.reqs ==> t.reqs[x].b != b)
    ensures |q1.avail| == NUM && Valid(Post(q1, b, h, m, l), PostTrace(t, b, h, m, l))
  {
    hide RingsOk, OneReq, ReqOk, DescOk, Set3, Count, Valid;
    Balanced(q, t);
    PostRings(q, q1, t, b, h, m, l);
    NotHead(q, t, h);
    Count3(q.free, h, m, l, false);
    var n, u := Post(q1, b, h, m, l), PostTrace(t, b, h, m, l);
    OneMore(t.reqs, u.reqs, h);
    forall i | 0 <= i < NUM ensures DescOk(n, u, i) {
      PostDesc(q, q1, t, b, h, m, l, i);
    }
    PostReqs(q, q1, t, b, h, m, l);
    MakeValid(n, u);
  }

  lemma Balanced(q: Queue, t: Trace)
    requires Valid(q, t)
    ensures |q.free| == |q.linked| == |q.next| == NUM && Count(q.free) + 3 * |t.reqs| == NUM
  {
    hide RingsOk, OneReq, ReqOk, DescOk, Count;
  }

  lemma MakeValid(q: Queue, t: Trace)
    requires |q.free| == |q.linked| == |q.next| == NUM && Count(q.free) + 3 * |t.reqs| == NUM && RingsOk(q, t)
    requires forall i :: 0 <= i < NUM ==> DescOk(q, t, i)
    requires forall h :: h in t.reqs ==> ReqOk(q, t, h)
    requires forall g, h :: g in t.reqs && h in t.reqs ==> OneReq(t, g, h)
    ensures Valid(q, t)
  {
    hide RingsOk, OneReq, ReqOk, DescOk, Count;
  }

  lemma RingsBound(q: Queue, t: Trace)
    requires Valid(q, t)
    ensures |q.avail| == |q.used| == NUM && t.taken <= |t.posted| && t.handled <= |t.done|
  {
    assert RingsOk(q, t);
  }

  lemma NotHead(q: Queue, t: Trace, h: nat)
    requires Valid(q, t) && h < NUM && q.free[h]
    ensures h !in t.reqs
  {
    if h in t.reqs {
      OldReqApart(q, t, h, h);
    }
  }

  /** A request moved on: only its phase changes. */
  function Phased(t: Trace, h: nat, p: Phase): (n: map<nat, Request>)
    requires h in t.reqs
  {
    t.reqs[h := t.reqs[h].(phase := p)]
  }

  /** The device reads the next entry of the available ring. */
  function DeviceTake(t: Trace): (n: Trace)
    requires t.taken < |t.posted| && t.posted[t.taken] in t.reqs
  {
    t.(reqs := Phased(t, t.posted[t.taken], AtDevice), taken := t.taken + 1)
  }

  lemma PhasedFrame(q: Queue, n: Queue, t: Trace, u: Trace, h: nat, p: Phase)
    requires Valid(q, t) && h in t.reqs && u.reqs == Phased(t, h, p) && u.of == t.of && n.free == q.free
    requires n.linked == q.linked && n.next == q.next
    ensures |n.free| == |n.linked| == |n.next| == NUM && (forall i :: 0 <= i < NUM ==> DescOk(n, u, i))
    ensures Count(n.free) + 3 * |u.reqs| == NUM
    ensures forall g, x :: g in u.reqs && x in u.reqs ==> OneReq(u, g, x)
  {
    hide RingsOk, ReqOk;
    forall i | 0 <= i < NUM ensures DescOk(n, u, i) {
      assert DescOk(q, t, i);
    }
    forall g, x | g in u.reqs && x in u.reqs ensures OneReq(u, g, x) {
      assert OneReq(t, g, x);
    }
    assert u.reqs.Keys == t.reqs.Keys;
    assert |u.reqs| == |t.reqs|;
  }

  lemma TakeRings(q: Queue, t: Trace)
    requires RingsOk(q, t) && t.taken < |t.posted|
    ensures t.posted[t.taken] in t.reqs && q.avail[t.taken % NUM] == t.posted[t.taken]
    ensures t.reqs[t.posted[t.taken]].phase == Posted(t.taken) && RingsOk(q, DeviceTake(t))
  {
    var u := DeviceTake(t);
    forall k {:trigger u.posted[k]} | u.taken <= k < |u.posted|
      ensures u.posted[k] in u.reqs && u.reqs[u.posted[k]].phase == Posted(k) && q.avail[k % NUM] == u.posted[k]
    {
      assert t.posted[k] in t.reqs;
    }
    forall k {:trigger u.done[k]} | u.handled <= k < |u.done|
      ensures u.done[k] in u.reqs && u.reqs[u.done[k]].phase == Used(k) && q.used[k % NUM] == u.done[k]
    {
      assert t.done[k] in t.reqs;
    }
  }

  lemma TakeReq(q: Queue, t: Trace, h: nat, g: nat)
    requires Valid(q, t) && t.taken < |t.posted| && h == t.posted[t.taken] && h in t.reqs
    requires t.reqs[h].phase == Posted(t.taken) && g in t.reqs
    ensures ReqOk(q, DeviceTake(t), g)
  {
    hide DescOk, OneReq, ChainOk, RingsOk;
    assert ReqOk(q, t, g);
    hide Valid;
    assert PhaseOk(t, g, t.reqs[g].phase);
  }

  lemma TakeInv(q: Queue, t: Trace)
    requires Valid(q, t) && t.taken < |t.posted|
    ensures t.posted[t.taken] in t.reqs && RingsOk(q, t) && q.avail[t.taken % NUM] == t.posted[t.taken]
    ensures Valid(q, DeviceTake(t))
  {
    hide DescOk, OneReq, ReqOk, RingsOk;
    assert RingsOk(q, t);
    TakeRings(q, t);
    var h, u := t.posted[t.taken], DeviceTake(t);
    PhasedFrame(q, q, t, u, h, AtDevice);
    forall g | g in u.reqs ensures ReqOk(q, u, g) {
      TakeReq(q, t, h, g);
    }
  }

  /** The device completes a request: its head goes into the used ring. */
  function DeviceDone(q: Queue, h: nat): (n: Queue)
    requires |q.used| == NUM
  {
    q.(used := q.used[q.usedIdx % NUM := h], usedIdx := (q.usedIdx + 1) % WRAP)
  }

  function DoneTrace(t: Trace, h: nat): (n: Trace)
    requires h in t.reqs
  {
    t.(reqs := Phased(t, h, Used(|t.done|)), done := t.done + [h])
  }

  lemma DoneRings(q: Queue, t: Trace, h: nat)
    requires Valid(q, t) && h in t.reqs && t.reqs[h].phase.AtDevice?
    ensures |q.used| == NUM && RingsOk(DeviceDone(q, h), DoneTrace(t, h))
  {
    hide ReqOk, DescOk, OneReq;
    assert RingsOk(q, t);
    AtMostTwo(q, t);
    Rings.Wrapped(|t.done|, NUM, WRAP);
    var n, u := DeviceDone(q, h), DoneTrace(t, h);
    forall k {:trigger u.done[k]} | u.handled <= k < |u.done|
      ensures u.done[k] in u.reqs && u.reqs[u.done[k]].phase == Used(k) && n.used[k % NUM] == u.done[k]
    {
      if k < |t.done| {
        assert u.done[k] == t.done[k];
        Rings.SlotsApart(k, |t.done|, NUM);
      }
    }
    forall k {:trigger u.posted[k]} | u.taken <= k < |u.posted|
      ensures u.posted[k] in u.reqs && u.reqs[u.posted[k]].phase == Posted(k) && n.avail[k % NUM] == u.posted[k]
    {
      assert t.posted[k] in t.reqs;
    }
  }

  lemma DoneInv(q: Queue, t: Trace, h: nat)
    requires Valid(q, t) && h in t.reqs && t.reqs[h].phase.AtDevice?
    ensures |q.used| == NUM && Valid(DeviceDone(q, h), DoneTrace(t, h))
  {
    DoneRings(q, t, h);
    var n, u := DeviceDone(q, h), DoneTrace(t, h);
    RingsBound(q, t);
    hide DescOk, OneReq, ChainOk, RingsOk;
    PhasedFrame(q, n, t, u, h, Used(|t.done|));
    forall g | g in u.reqs ensures ReqOk(n, u, g) {
      assert ReqOk(q, t, g);
      SameChain(q, n, t.of, g, t.reqs[g].mid, t.reqs[g].last);
      assert PhaseOk(t, g, t.reqs[g].phase);
    }
  }

  /** One turn of the interrupt handler: the buffer of the next used head is done. */
  function Handle(q: Queue, h: nat): (n: Queue)
    requires h in q.buf
  {
    q.(busy := q.busy - {q.buf[h]}, seen := (q.seen + 1) % WRAP)
  }

  function HandleTrace(t: Trace): (n: Trace)
    requires t.handled < |t.done| && t.done[t.handled] in t.reqs
  {
    t.(reqs := Phased(t, t.done[t.handled], Handled), handled := t.handled + 1)
  }

  lemma HandleRings(q: Queue, t: Trace, h: nat)
    requires RingsOk(q, t) && t.handled < |t.done| && h == t.done[t.handled] && h in t.reqs
    requires t.reqs[h].phase == Used(t.handled) && h in q.buf
    ensures q.used[q.seen % NUM] == h && RingsOk(Handle(q, h), HandleTrace(t))
  {
    Rings.Wrapped(t.handled, NUM, WRAP);
    var n, u := Handle(q, h), HandleTrace(t);
    forall k {:trigger u.done[k]} | u.handled <= k < |u.done|
      ensures u.done[k] in u.reqs && u.reqs[u.done[k]].phase == Used(k) && n.used[k % NUM] == u.done[k]
    {
      assert t.done[k] in t.reqs;
    }
    forall k {:trigger u.posted[k]} | u.taken <= k < |u.posted|
      ensures u.posted[k] in u.reqs && u.reqs[u.posted[k]].phase == Posted(k) && n.avail[k % NUM] == u.posted[k]
    {
      assert t.posted[k] in t.reqs;
    }
  }

  lemma HandleFacts(q: Queue, t: Trace)
    requires Valid(q, t) && t.handled < |t.done|
    ensures var h := t.done[t.handled];
              h in t.reqs && t.reqs[h].phase == Used(t.handled) && h in q.buf && q.buf[h] == t.reqs[h].b &&
                    q.buf[h] in q.busy
    ensures RingsOk(q, t)
  {
    hide DescOk, OneReq;
    assert RingsOk(q, t);
    assert ReqOk(q, t, t.done[t.handled]);
  }

  lemma HandleReq(q: Queue, t: Trace, h: nat, g: nat)
    requires Valid(q, t) && t.handled < |t.done| && h == t.done[t.handled] && h in t.reqs
    requires t.reqs[h].phase == Used(t.handled) && h in q.buf && q.buf[h] == t.reqs[h].b
    requires g in t.reqs
    ensures ReqOk(Handle(q, h), HandleTrace(t), g)
  {
    hide DescOk, RingsOk, ChainOk;
    assert ReqOk(q, t, g) && OneReq(t, g, h);
    hide Valid;
    SameChain(q, Handle(q, h), t.of, g, t.reqs[g].mid, t.reqs[g].last);
    assert PhaseOk(t, g, t.reqs[g].phase);
  }

  lemma SameChain(q: Queue, n: Queue, of: map<nat, nat>, h: nat, m: nat, l: nat)
    requires |q.free| == |q.linked| == |q.next| == NUM && n.free == q.free && n.linked == q.linked && n.next == q.next
    requires ChainOk(q, of, h, m, l)
    ensures ChainOk(n, of, h, m, l)
  {
  }

  /** The head the handler reads is a request in flight whose buffer is still marked busy. */
  lemma HandleInv(q: Queue, t: Trace)
    requires Valid(q, t) && t.handled < |t.done|
    ensures var h := t.done[t.handled];
            && |q.used| == NUM && q.used[q.seen % NUM] == h && h in t.reqs && h in q.buf && q.buf[h] == t.reqs[h].b
            && q.buf[h] in q.busy
            && Valid(Handle(q, h), HandleTrace(t))
  {
    HandleFacts(q, t);
    var h := t.done[t.handled];
    HandleRings(q, t, h);
    hide DescOk, OneReq, ReqOk, RingsOk;
    var n, u := Handle(q, h), HandleTrace(t);
    PhasedFrame(q, n, t, u, h, Handled);
    forall g | g in u.reqs ensures ReqOk(n, u, g) {
      HandleReq(q, t, h, g);
    }
  }

  /** The end of virtio_disk_rw: info[].b cleared and the chain freed. */
  function Finish(q: Queue, h: nat, m: nat, l: nat): (n: Queue)
    requires h < |q.free| && m < |q.free| && l < |q.free| && h != m && h != l && m != l
    requires |q.free| == |q.linked| == |q.next|
  {
    q.(free := Set3(q.free, h, true, m, true, l, true), linked := Set3(q.linked, h, false, m, false, l, false),
       next := Set3(q.next, h, 0, m, 0, l, 0), buf := q.buf - {h})
  }

  function FinishTrace(t: Trace, h: nat): (n: Trace)
    requires h in t.reqs
  {
    t.(reqs := t.reqs - {h}, of := t.of - {h, t.reqs[h].mid, t.reqs[h].last})
  }

  lemma FinishReq(q: Queue, t: Trace, h: nat, g: nat)
    requires Valid(q, t) && h in t.reqs && t.reqs[h].phase.Handled? && g in t.reqs && g != h && ReqOk(q, t, h)
    ensures ReqOk(Finish(q, h, t.reqs[h].mid, t.reqs[h].last), FinishTrace(t, h), g)
  {
    hide Set3, RingsOk, DescOk, Valid, Count;
    TwoReqs(q, t, g, h);
    var r, s := t.reqs[g], t.reqs[h];
    assert ChainOk(q, t.of, g, r.mid, r.last) && ChainOk(q, t.of, h, s.mid, s.last) && PhaseOk(t, g, r.phase);
    assert ChainOk(Finish(q, h, s.mid, s.last), FinishTrace(t, h).of, g, r.mid, r.last);
  }

  lemma TwoReqs(q: Queue, t: Trace, g: nat, h: nat)
    requires Valid(q, t) && g in t.reqs && h in t.reqs
    ensures |q.free| == |q.linked| == |q.next| == NUM && ReqOk(q, t, g) && ReqOk(q, t, h) && OneReq(t, g, h)
  {
    hide ReqOk, OneReq, RingsOk, DescOk, Count;
  }

  lemma FinishDesc(q: Queue, t: Trace, h: nat, i: nat)
    requires Valid(q, t) && h in t.reqs && ReqOk(q, t, h) && i < NUM
    ensures DescOk(Finish(q, h, t.reqs[h].mid, t.reqs[h].last), FinishTrace(t, h), i)
  {
    hide RingsOk, OneReq, Set3;
    assert DescOk(q, t, i);
    assert ChainOk(q, t.of, h, t.reqs[h].mid, t.reqs[h].last);
  }

  lemma FinishRings(q: Queue, t: Trace, h: nat)
    requires Shape(q) && RingsOk(q, t) && h in t.reqs && t.reqs[h].phase.Handled? && ReqOk(q, t, h)
    ensures RingsOk(Finish(q, h, t.reqs[h].mid, t.reqs[h].last), FinishTrace(t, h))
  {
    var u := FinishTrace(t, h);
    forall k {:trigger u.done[k]} | u.handled <= k < |u.done|
      ensures u.done[k] in u.reqs && u.reqs[u.done[k]].phase == Used(k)
    {
      assert t.done[k] in t.reqs;
    }
    forall k {:trigger u.posted[k]} | u.taken <= k < |u.posted|
      ensures u.posted[k] in u.reqs && u.reqs[u.posted[k]].phase == Posted(k)
    {
      assert t.posted[k] in t.reqs;
    }
  }

  lemma FinishFacts(q: Queue, t: Trace, h: nat)
    requires Valid(q, t) && h in t.reqs
    ensures Shape(q) && ReqOk(q, t, h) && RingsOk(q, t)
    ensures var r := t.reqs[h];
              h < NUM && r.mid < NUM && r.last < NUM && h != r.mid && h != r.last && r.mid != r.last && !q.free[h] &&
                    !q.free[r.mid] && !q.free[r.last]
    ensures var r := t.reqs[h];
            q.linked[h] && q.next[h] == r.mid && q.linked[r.mid] && q.next[r.mid] == r.last && !q.linked[r.last]
  {
    hide DescOk, OneReq, RingsOk;
    assert ReqOk(q, t, h);
    assert ChainOk(q, t.of, h, t.reqs[h].mid, t.reqs[h].last);
  }

  lemma FinishInv(q: Queue, t: Trace, h: nat)
    requires Valid(q, t) && h in t.reqs && t.reqs[h].phase.Handled?
    ensures ReqOk(q, t, h) && Valid(Finish(q, h, t.reqs[h].mid, t.reqs[h].last), FinishTrace(t, h))
  {
    hide RingsOk, DescOk, ReqOk, Set3, Count, Valid;
    Balanced(q, t);
    FinishFacts(q, t, h);
    var r := t.reqs[h];
    var n, u := Finish(q, h, r.mid, r.last), FinishTrace(t, h);
    FinishRings(q, t, h);
    Count3(q.free, h, r.mid, r.last, true);
    assert t.reqs.Keys == u.reqs.Keys + {h};
    OneMore(u.reqs, t.reqs, h);
    forall g | g in u.reqs ensures ReqOk(n, u, g) {
      FinishReq(q, t, h, g);
    }
    forall i | 0 <= i < NUM ensures DescOk(n, u, i) {
      FinishDesc(q, t, h, i);
    }
    forall g, x | g in u.reqs && x in u.reqs ensures OneReq(u, g, x) {
      TwoReqs(q, t, g, x);
    }
    MakeValid(n, u);
  }

  // ----- the driver

  ghost predicate Shape(q: Queue) { |q.free| == |q.linked| == |q.next| == NUM }

  /** Free descriptors are blank. */
  ghost predicate Blank(q: Queue) { Shape(q) && forall i :: 0 <= i < NUM && q.free[i] ==>
        !q.linked[i] && q.next[i] == 0 }

  /** q is q0 with the free descriptors idx marked as in use. */
  ghost predicate Marked(q0: Queue, q: Queue, idx: seq<nat>)
  {
    && Shape(q0) && Shape(q) && q == q0.(free := q.free) && Count(q.free) + |idx| == Count(q0.free)
    && (forall j :: 0 <= j < |idx| ==> idx[j] < NUM && q0.free[idx[j]])
    && (forall j, k :: 0 <= j < k < |idx| ==> idx[j] != idx[k])
    && (forall i :: 0 <= i < NUM ==> (q.free[i] <==> q0.free[i] && i !in idx))
  }

  class Disk {
    var q: Queue
    ghost var t: Trace

    /** All descriptors free, both rings empty. */
    constructor ()
      ensures Valid(q, t) && t.reqs == map[] && q.busy == {}
    {
      q := Queue(seq(NUM, _ => true), seq(NUM, _ => false), seq(NUM, _ => 0), map[], {}, seq(NUM, _ => 0), 0,
            seq(NUM, _ => 0), 0, 0);
      t := Trace(map[], map[], [], 0, [], 0);
      new;
      AllFree(q.free);
    }

    /** alloc_desc */
    method AllocDesc() returns (i: int)
      requires Shape(q)
      modifies this`q
      ensures i == -1 ==> q == old(q) && forall k :: 0 <= k < NUM ==> !q.free[k]
      ensures i != -1 ==> 0 <= i < NUM && old(q).free[i] && q == old(q).(free := old(q).free[i := false])
    {
      i := 0;
      while i < NUM
        invariant 0 <= i <= NUM && q == old(q) && forall k :: 0 <= k < i ==> !q.free[k]
      {
        if q.free[i] {
          q := q.(free := q.free[i := false]);
          return;
        }
        i := i + 1;
      }
      i := -1;
    }

    /** free_desc */
    method FreeDesc(i: nat)
      requires Shape(q) && i < NUM && !q.free[i]
      modifies this`q
      ensures q == old(q).(free := old(q).free[i := true], linked := old(q).linked[i := false],
                next := old(q).next[i := 0])
    {
      q := q.(linked := q.linked[i := false], next := q.next[i := 0]);
      q := q.(free := q.free[i := true]);
    }

    /** alloc3_desc: three descriptors, or none and nothing changed; it fails exactly when fewer than three are free. */
    method Alloc3() returns (ok: bool, idx: seq<nat>)
      requires Blank(q)
      modifies this`q
      ensures ok <==> Count(old(q).free) >= 3
      ensures !ok ==> q == old(q)
      ensures ok ==> |idx| == 3 && Taken3(old(q), q, idx[0], idx[1], idx[2])
    {
      ghost var q0 := q;
      idx := [];
      while |idx| < 3
        invariant |idx| <= 3 && Marked(q0, q, idx)
        decreases 3 - |idx|
      {
        ghost var before := q;
        var d := AllocDesc();
        if d < 0 {
          CountNone(q.free);
          Rollback(idx, q0);
          return false, idx;
        }
        CountSet(before.free, d, false);
        idx := idx + [d];
      }
      MarkedThree(q0, q, idx);
      ok := true;
    }

    /** alloc3_desc's way back. */
    method Rollback(idx: seq<nat>, ghost q0: Queue)
      requires Blank(q0) && Marked(q0, q, idx)
      modifies this`q
      ensures q == q0
    {
      var j := 0;
      while j < |idx|
        invariant 0 <= j <= |idx| && Shape(q) && q == q0.(free := q.free, linked := q.linked, next := q.next)
        invariant forall i :: 0 <= i < NUM ==> (q.free[i] <==> q0.free[i] && i !in idx[j..])
        invariant forall i :: 0 <= i < NUM ==> q.linked[i] == q0.linked[i] && q.next[i] == q0.next[i]
      {
        assert idx[j..] == [idx[j]] + idx[j + 1..];
        FreeDesc(idx[j]);
        j := j + 1;
      }
      assert q.free == q0.free && q.linked == q0.linked && q.next == q0.next;
    }

    /** free_chain: follows the links from descriptor i. */
    method FreeChain(h: nat, ghost m: nat, ghost l: nat)
      requires Shape(q) && h < NUM && m < NUM && l < NUM && h != m && h != l && m != l && !q.free[h] && !q.free[m]
      requires !q.free[l]
      requires q.linked[h] && q.next[h] == m && q.linked[m] && q.next[m] == l && !q.linked[l]
      modifies this`q
      ensures q == Finish(old(q), h, m, l).(buf := old(q).buf)
    {
      ghost var q0 := q;
      var i := h;
      ghost var left := 3;
      while true
        invariant Shape(q) && 1 <= left <= 3 && i == (if left == 3 then h else if left == 2 then m else l)
        invariant q == if left == 3 then q0 else if left == 2 then Cleared(q0, h) else Cleared(Cleared(q0, h), m)
        decreases left
      {
        var flag, nxt := q.linked[i], q.next[i];
        FreeDesc(i);
        if !flag {
          break;
        }
        i := nxt;
        left := left - 1;
      }
    }

    /** virtio_disk_rw for buffer b up to its wait, or not at all when descriptors are short and it has to sleep. */
    method Submit(b: nat) returns (ok: bool, ghost h: nat)
      requires Valid(q, t) && forall x :: x in t.reqs ==> t.reqs[x].b != b
      modifies this
      ensures Valid(q, t) && (ok <==> |old(t).reqs| < 2)
      ensures !ok ==> q == old(q) && t == old(t)
      ensures ok ==>
                h in t.reqs && h !in old(t).reqs && t.reqs[h].b == b && b in q.busy &&
                t.posted == old(t).posted + [h] && t.reqs.Keys == old(t).reqs.Keys + {h}
      ensures forall g :: g in old(t).reqs ==> g in t.reqs && t.reqs[g] == old(t).reqs[g]
    {
      hide Valid;
      ghost var q0 := q;
      BlankWhenFree(q, t);
      var idx;
      ok, idx := Alloc3();
      h := 0;
      if !ok {
        return;
      }
      PostInv(q0, q, t, b, idx[0], idx[1], idx[2]);
      NotHead(q0, t, idx[0]);
      q := q.(linked := q.linked[idx[0] := true], next := q.next[idx[0] := idx[1]]);
      q := q.(linked := q.linked[idx[1] := true], next := q.next[idx[1] := idx[2]]);
      q := q.(linked := q.linked[idx[2] := false], next := q.next[idx[2] := 0]);
      q := q.(busy := q.busy + {b}, buf := q.buf[idx[0] := b]);
      q := q.(avail := q.avail[q.availIdx % NUM := idx[0]]);
      q := q.(availIdx := (q.availIdx + 1) % WRAP);
      t := PostTrace(t, b, idx[0], idx[1], idx[2]);
      h := idx[0];
    }

    /** The device reads an entry of the available ring: the head that was posted there, not yet overwritten. */
    method DeviceTakes() returns (ghost h: nat)
      requires Valid(q, t) && t.taken < |t.posted|
      modifies this`t
      ensures |q.avail| == NUM && Valid(q, t) && h == old(t).posted[old(t).taken] == q.avail[old(t).taken % NUM]
      ensures h in t.reqs && t.reqs[h].phase.AtDevice? && t.taken == old(t).taken + 1
      ensures t == DeviceTake(old(t))
    {
      hide Valid;
      TakeInv(q, t);
      h := t.posted[t.taken];
      t := DeviceTake(t);
    }

    /** The device completes any request it has. */
    method DeviceCompletes(h: nat)
      requires Valid(q, t) && h in t.reqs && t.reqs[h].phase.AtDevice?
      modifies this
      ensures Valid(q, t) && |old(q).used| == NUM && q == DeviceDone(old(q), h) && t == DoneTrace(old(t), h)
      ensures t.done == old(t).done + [h] && h in t.reqs && t.reqs[h].phase == Used(|old(t).done|)
    {
      hide Valid;
      DoneInv(q, t, h);
      q := q.(used := q.used[q.usedIdx % NUM := h]);
      q := q.(usedIdx := (q.usedIdx + 1) % WRAP);
      t := DoneTrace(t, h);
    }

    /** virtio_disk_intr: every completed request is handled, once and in order, and its buffer is no longer busy. */
    method Interrupt()
      requires Valid(q, t)
      modifies this
      ensures Valid(q, t) && t.handled == |t.done| && HandledSince(old(t), t)
      ensures forall h :: h in t.reqs && t.reqs[h].phase.Handled? ==> t.reqs[h].b !in q.busy
      ensures forall h :: h in old(t).reqs && old(t).reqs[h].phase.Used? ==> t.reqs[h].phase.Handled?
    {
      hide Valid, HandledSince;
      UsedGap(q, t);
      HandledNone(q, t);
      while q.seen != q.usedIdx
        invariant Valid(q, t) && t.handled <= |t.done| && HandledSince(old(t), t) && |t.done| == |old(t).done|
        invariant q.seen == q.usedIdx <==> t.handled == |t.done|
        decreases |t.done| - t.handled
      {
        ghost var u := t;
        OneUsed(q, t);
        HandleNext();
        HandledMore(old(t), u, t);
        UsedGap(q, t);
      }
      HandledAll(old(q), old(t), q, t);
    }

    /** One turn of the handler: the id it reads belongs to a request in flight whose buffer has disk == 1. */
    method HandleNext()
      requires Valid(q, t) && t.handled < |t.done|
      modifies this
      ensures var h := old(t).done[old(t).handled];
              && h in old(t).reqs && h in old(q).buf && old(q).buf[h] == old(t).reqs[h].b
              && old(q).buf[h] in old(q).busy && old(t).reqs[h].phase == Used(old(t).handled)
              && q == Handle(old(q), h) && t == HandleTrace(old(t))
              && h in t.reqs && t.reqs[h].phase.Handled? && t.reqs[h].b !in q.busy && t.handled == old(t).handled + 1
      ensures Valid(q, t)
    {
      hide Valid;
      HandleInv(q, t);
      HandleFacts(q, t);
      var id := q.used[q.seen % NUM];
      var b := q.buf[id];
      q := q.(busy := q.busy - {b});
      q := q.(seen := (q.seen + 1) % WRAP);
      t := HandleTrace(t);
    }

    /** The end of virtio_disk_rw for the request at h, once b->disk is 0. */
    method Complete(h: nat)
      requires Valid(q, t) && h in t.reqs && t.reqs[h].b !in q.busy
      modifies this
      ensures Valid(q, t) && t.reqs == old(t).reqs - {h} && Count(q.free) == Count(old(q).free) + 3
      ensures q.busy == old(q).busy
    {
      hide Valid, RingsOk, ReqOk, Set3, Count;
      HandledWhenIdle(q, t, h);
      FinishInv(q, t, h);
      ghost var r := t.reqs[h];
      FinishFacts(q, t, h);
      Count3(q.free, h, r.mid, r.last, true);
      q := q.(buf := q.buf - {h});
      FreeChain(h, r.mid, r.last);
      t := FinishTrace(t, h);
    }
  }

  /** Since t0 the handler has seen exactly the used entries up to t.handled. */
  ghost predicate HandledSince(t0: Trace, t: Trace)
  {
    && t == t0.(reqs := t.reqs, handled := t.handled) && t.reqs.Keys == t0.reqs.Keys
    && forall h :: h in t0.reqs ==>
         t.reqs[h] == t0.reqs[h].(
           phase := if t0.reqs[h].phase.Used? && t0.reqs[h].phase.k < t.handled then Handled else t0.reqs[h].phase)
  }

  lemma HandledNone(q: Queue, t: Trace)
    requires Valid(q, t)
    ensures HandledSince(t, t)
  {
    hide DescOk, OneReq, RingsOk;
    forall h | h in t.reqs ensures t.reqs[h].phase.Used? ==> t.reqs[h].phase.k >= t.handled {
      assert ReqOk(q, t, h);
      assert PhaseOk(t, h, t.reqs[h].phase);
    }
  }

  lemma OneUsed(q: Queue, t: Trace)
    requires Valid(q, t) && t.handled < |t.done|
    ensures forall h :: h in t.reqs && t.reqs[h].phase == Used(t.handled) ==> h == t.done[t.handled]
  {
    hide DescOk, OneReq, RingsOk;
    forall h | h in t.reqs && t.reqs[h].phase == Used(t.handled) ensures h == t.done[t.handled] {
      assert ReqOk(q, t, h);
      assert PhaseOk(t, h, t.reqs[h].phase);
    }
  }

  lemma HandledMore(t0: Trace, u: Trace, t: Trace)
    requires HandledSince(t0, u) && u.handled < |u.done| && u.done[u.handled] in u.reqs
    requires u.reqs[u.done[u.handled]].phase == Used(u.handled)
    requires t == HandleTrace(u) && forall h :: h in u.reqs && u.reqs[h].phase == Used(u.handled) ==>
               h == u.done[u.handled]
    ensures HandledSince(t0, t)
  {
  }

  lemma HandledAll(q0: Queue, t0: Trace, q: Queue, t: Trace)
    requires Valid(q0, t0) && Valid(q, t) && HandledSince(t0, t) && t.handled == |t.done|
    ensures forall h :: h in t.reqs && t.reqs[h].phase.Handled? ==> t.reqs[h].b !in q.busy
    ensures forall h :: h in t0.reqs && t0.reqs[h].phase.Used? ==> t.reqs[h].phase.Handled?
  {
    hide DescOk, OneReq, RingsOk;
    forall h | h in t.reqs && t.reqs[h].phase.Handled? ensures t.reqs[h].b !in q.busy {
      assert ReqOk(q, t, h);
    }
    forall h | h in t0.reqs && t0.reqs[h].phase.Used? ensures t0.reqs[h].phase.k < |t0.done| {
      assert ReqOk(q0, t0, h);
      assert PhaseOk(t0, h, t0.reqs[h].phase);
    }
  }

  lemma UsedGap(q: Queue, t: Trace)
    requires Valid(q, t)
    ensures t.handled <= |t.done| && (q.seen == q.usedIdx <==> t.handled == |t.done|)
  {
    AtMostTwo(q, t);
    assert RingsOk(q, t);
    IndexGap(t.handled, |t.done|);
  }

  lemma HandledWhenIdle(q: Queue, t: Trace, h: nat)
    requires Valid(q, t) && h in t.reqs && t.reqs[h].b !in q.busy
    ensures t.reqs[h].phase.Handled?
  {
    assert ReqOk(q, t, h);
  }

  function Cleared(q: Queue, i: nat): (n: Queue)
    requires i < |q.free| && |q.free| == |q.linked| == |q.next|
  {
    q.(free := q.free[i := true], linked := q.linked[i := false], next := q.next[i := 0])
  }

  lemma MarkedThree(q0: Queue, q: Queue, idx: seq<nat>)
    requires Marked(q0, q, idx) && |idx| == 3
    ensures Taken3(q0, q, idx[0], idx[1], idx[2])
  {
    assert idx[0] != idx[1] && idx[0] != idx[2] && idx[1] != idx[2];
    var s := q0.free[idx[0] := false][idx[1] := false][idx[2] := false];
    forall i | 0 <= i < NUM ensures q.free[i] == s[i] {
      assert i in idx <==> i == idx[0] || i == idx[1] || i == idx[2];
    }
    assert q.free == s && s == Set3(q0.free, idx[0], false, idx[1], false, idx[2], false);
  }

  lemma BlankWhenFree(q: Queue, t: Trace)
    requires Valid(q, t)
    ensures Blank(q) && (Count(q.free) >= 3 <==> |t.reqs| < 2)
  {
    forall i | 0 <= i < NUM && q.free[i] ensures !q.linked[i] && q.next[i] == 0 {
      assert DescOk(q, t, i);
    }
  }

  lemma AllFree(s: seq<bool>)
    requires |s| == NUM && forall i :: 0 <= i < NUM ==> s[i]
    ensures Count(s) == NUM
  {
    CountAll(s);
  }

  lemma {:induction false} CountAll(s: seq<bool>)
    requires forall i :: 0 <= i < |s| ==> s[i]
    ensures Count(s) == |s|
  {
    if s != [] {
      CountAll(s[..|s| - 1]);
    }
  }
}
