/** The buffer cache of kernel/bio.c: NBUF buffers on a circular doubly linked LRU list
    threaded through a sentinel.  Each method is one region executed under `bcache.lock`
    or under a buffer's sleep lock, so every interleaving of processes is a sequence of
    calls, and what `Valid` says holds between any two of them. */
module Bio {
  import opened Blocks

  const NBUF := 30
  const ROOTDEV := 1

  /** The list head's index: one past the last buffer. */
  const HEAD := NBUF

  /** `dev == 0` is the state of a buffer that was never used. */
  datatype Buf = Buf(dev: nat, blockno: nat, valid: bool, refcnt: int, locked: bool, data: Block)

  function Succ(k: nat): (r: nat)
    requires k <= NBUF
  {
    if k == NBUF then 0 else k + 1
  }

  function Pred(k: nat): (r: nat)
    requires k <= NBUF
  {
    if k == 0 then NBUF else k - 1
  }

  /** `c` lists every node once, starting at the head; `pos` is its inverse. */
  ghost predicate Circle(c: seq<nat>, pos: seq<nat>)
  {
    && |c| == |pos| == NBUF + 1
    && c[0] == HEAD
    && (forall k {:trigger c[k]} :: 0 <= k <= NBUF ==> c[k] <= NBUF && pos[c[k]] == k)
    && (forall i {:trigger pos[i]} :: 0 <= i <= NBUF ==> pos[i] <= NBUF && c[pos[i]] == i)
  }

  /** Both link arrays follow the circle `c`, most recently released buffer first. */
  ghost predicate Ring(c: seq<nat>, pos: seq<nat>, next: seq<nat>, prev: seq<nat>)
  {
    && Circle(c, pos)
    && |next| == |prev| == NBUF + 1
    && (forall k {:trigger next[c[k]]} :: 0 <= k <= NBUF ==> next[c[k]] == c[Succ(k)])
    && (forall k {:trigger prev[c[k]]} :: 0 <= k <= NBUF ==> prev[c[k]] == c[Pred(k)])
  }

  /** The position a node at position m comes from when the k-th is moved behind the head. */
  function From(k: nat, m: nat): (p: nat)
    requires 0 < k
  {
    if m == 0 then 0 else if m == 1 then k else if m <= k then m - 1 else m
  }

  /** The position the node at position p moves to: the inverse of From. */
  function To(k: nat, p: nat): (m: nat)
    requires 0 < k
    ensures From(k, m) == p
  {
    if p == 0 then 0 else if p == k then 1 else if p < k then p + 1 else p
  }

  /** The circle with its k-th node moved just behind the head. */
  function ToFront(c: seq<nat>, k: nat): (r: seq<nat>)
    requires 0 < k <= NBUF && |c| == NBUF + 1
  {
    seq(NBUF + 1, m requires 0 <= m <= NBUF => c[From(k, m)])
  }

  ghost function ToFrontPos(pos: seq<nat>, k: nat): (r: seq<nat>)
    requires 0 < k <= NBUF && |pos| == NBUF + 1
  {
    seq(NBUF + 1, i requires 0 <= i <= NBUF => To(k, pos[i]))
  }

  lemma ToFrontCircle(c: seq<nat>, pos: seq<nat>, k: nat)
    requires Circle(c, pos) && 0 < k <= NBUF
    ensures Circle(ToFront(c, k), ToFrontPos(pos, k))
  {
  }

  /** Circle and positions after the buffers `released` have been moved to the front one after the other. */
  ghost function Moved(c: seq<nat>, pos: seq<nat>, released: seq<nat>): (r: (seq<nat>, seq<nat>))
    requires Circle(c, pos) && forall k :: 0 <= k < |released| ==> released[k] < NBUF
    ensures Circle(r.0, r.1)
    decreases |released|
  {
    if released == [] then (c, pos)
    else
      var r := Moved(c, pos, released[..|released| - 1]);
      var i := released[|released| - 1];
      assert r.0[r.1[i]] == i;
      ToFrontCircle(r.0, r.1, r.1[i]);
      (ToFront(r.0, r.1[i]), ToFrontPos(r.1, r.1[i]))
  }

  /** When buffer i was last released: its last place in the list, -1 if it is not there. */
  function LastRelease(released: seq<nat>, i: nat): (k: int)
    ensures -1 <= k < |released| && (k >= 0 ==> released[k] == i)
    ensures forall j :: k < j < |released| ==> released[j] != i
  {
    if released == [] then -1
    else if released[|released| - 1] == i then |released| - 1
    else LastRelease(released[..|released| - 1], i)
  }

  /** The list is in order of release: of two buffers the one released later is nearer to the front, and two that
      have not been released stand as they did.  So the last free one is the least recently used. */
  lemma {:induction false} RecencyOrder(c: seq<nat>, pos: seq<nat>, released: seq<nat>, x: nat, y: nat)
    requires Circle(c, pos) && x < NBUF && y < NBUF && x != y
    requires forall k :: 0 <= k < |released| ==> released[k] < NBUF
    ensures var r, a, b := Moved(c, pos, released).1, LastRelease(released, x), LastRelease(released, y);
            && (a > b ==> r[x] < r[y]) && (a == b ==> a == -1 && (r[x] < r[y] <==> pos[x] < pos[y]))
    decreases |released|
  {
    if released != [] {
      var n := |released| - 1;
      RecencyOrder(c, pos, released[..n], x, y);
      var m, i := Moved(c, pos, released[..n]), released[n];
      FrontOrder(m.0, m.1, i, x, y);
    }
  }

  /** Moving buffer i to the front puts it before all others, and leaves their order alone. */
  lemma FrontOrder(c: seq<nat>, pos: seq<nat>, i: nat, x: nat, y: nat)
    requires Circle(c, pos) && i < NBUF && x < NBUF && y < NBUF && x != y
    ensures 0 < pos[i] <= NBUF && ToFront(c, pos[i])[1] == i
    ensures var r := ToFrontPos(pos, pos[i]);
            r[i] == 1 && (x == i ==> r[x] < r[y]) && (x != i && y != i ==> (r[x] < r[y] <==> pos[x] < pos[y]))
  {
    assert c[pos[i]] == i && c[pos[x]] == x && c[pos[y]] == y && c[0] == HEAD;
  }

  lemma RelinkNext(c: seq<nat>, pos: seq<nat>, next: seq<nat>, k: nat, n2: seq<nat>, m: nat)
    requires Circle(c, pos) && 0 < k <= NBUF && m <= NBUF && |next| == NBUF + 1
    requires forall k {:trigger next[c[k]]} :: 0 <= k <= NBUF ==> next[c[k]] == c[Succ(k)]
    requires n2 == next[c[k - 1] := c[Succ(k)]][c[k] := c[From(k, 2)]][HEAD := c[k]]
    ensures n2[ToFront(c, k)[m]] == ToFront(c, k)[Succ(m)]
  {
    assert next[c[From(k, m)]] == c[Succ(From(k, m))];
  }

  lemma RelinkPrev(c: seq<nat>, pos: seq<nat>, prev: seq<nat>, k: nat, p2: seq<nat>, m: nat)
    requires Circle(c, pos) && 0 < k <= NBUF && m <= NBUF && |prev| == NBUF + 1
    requires forall k {:trigger prev[c[k]]} :: 0 <= k <= NBUF ==> prev[c[k]] == c[Pred(k)]
    requires p2 == prev[c[Succ(k)] := c[k - 1]][c[k] := HEAD][c[From(k, 2)] := c[k]]
    ensures p2[ToFront(c, k)[m]] == ToFront(c, k)[Pred(m)]
  {
    assert prev[c[From(k, m)]] == c[Pred(From(k, m))];
  }

  /** The six pointer assignments of `brelse` move the node at position k behind the head. */
  lemma Relink(c: seq<nat>, pos: seq<nat>, next: seq<nat>, prev: seq<nat>, k: nat, n2: seq<nat>, p2: seq<nat>)
    requires Ring(c, pos, next, prev) && 0 < k <= NBUF
    requires next[c[k]] <= NBUF && prev[c[k]] <= NBUF
    requires var n1 := next[prev[c[k]] := next[c[k]]];
             var p1 := prev[next[c[k]] := prev[c[k]]];
             && n1[HEAD] <= NBUF
             && n2 == n1[c[k] := n1[HEAD]][HEAD := c[k]]
             && p2 == p1[c[k] := HEAD][n1[HEAD] := c[k]]
    ensures Ring(ToFront(c, k), ToFrontPos(pos, k), n2, p2)
  {
    ToFrontCircle(c, pos, k);
    assert prev[c[k]] == c[k - 1] && next[c[k]] == c[Succ(k)] && next[c[0]] == c[1];
    var r := ToFront(c, k);
    forall m {:trigger n2[r[m]]} | 0 <= m <= NBUF ensures n2[r[m]] == r[Succ(m)] {
      RelinkNext(c, pos, next, k, n2, m);
    }
    forall m {:trigger p2[r[m]]} | 0 <= m <= NBUF ensures p2[r[m]] == r[Pred(m)] {
      RelinkPrev(c, pos, prev, k, p2, m);
    }
  }

  /** A snapshot of the cache and the disk behind it.  `users[i]` counts the processes that
      hold or wait for buffer i, `index` finds the buffer of a cached block, `view` is what a
      reader of each block must see, `logged` are the blocks pinned by the log, `modified` the
      blocks changed by their lock holder and not yet written or logged, and `trace` every disk
      image since boot, one per block write. */
  datatype Snapshot = Snapshot(bufs: seq<Buf>, disk: seq<Block>, users: seq<int>, index: map<nat, nat>,
                               view: seq<Block>, logged: set<nat>, modified: set<nat>,
                               trace: seq<seq<Block>>)

  ghost predicate Shape(s: Snapshot)
  {
    |s.bufs| == |s.users| == NBUF && |s.view| == |s.disk|
  }

  /** Buffer i is unused, or the one buffer of its block, with its references accounted for
      and its data, once read, being what readers must see. */
  ghost predicate BufOk(s: Snapshot, i: nat)
    requires Shape(s) && i < NBUF
  {
    var b := s.bufs[i];
    if b.dev == 0 then b.refcnt == s.users[i] == 0 && !b.locked
    else
      && b.dev == ROOTDEV && b.blockno < |s.disk|
      && b.blockno in s.index && s.index[b.blockno] == i
      && s.users[i] >= 0 && b.refcnt == s.users[i] + (if b.blockno in s.logged then 1 else 0)
      && (b.locked ==> s.users[i] > 0)
      && (b.valid ==> b.data == s.view[b.blockno])
      && (b.blockno in s.logged ==> b.valid)
      && (b.blockno in s.modified ==> b.valid && b.locked)
  }

  ghost predicate Cached(s: Snapshot, b: nat)
    requires Shape(s)
  {
    b in s.index && s.index[b] < NBUF && s.bufs[s.index[b]].dev == ROOTDEV && s.bufs[s.index[b]].blockno == b
  }

  /** The cache invariant: buffers are as `BufOk` says, the index is exact, and a block that is
      neither logged nor being modified reads the same through the cache as on the disk. */
  ghost predicate Inv(s: Snapshot)
  {
    && Shape(s)
    && (forall i :: 0 <= i < NBUF ==> BufOk(s, i))
    && (forall b :: b in s.index ==> Cached(s, b))
    && (forall b :: b in s.logged || b in s.modified ==> b in s.index)
    && (forall b {:trigger s.view[b]} :: 0 <= b < |s.disk| && b !in s.logged && b !in s.modified ==>
          s.view[b] == s.disk[b])
  }

  // ----- one function for each region of bio.c

  function Hit(s: Snapshot, i: nat): (r: Snapshot)
    requires Shape(s) && i < NBUF
  {
    s.(bufs := s.bufs[i := s.bufs[i].(refcnt := s.bufs[i].refcnt + 1)], users := s.users[i := s.users[i] + 1])
  }

  function Recycle(s: Snapshot, i: nat, b: nat): (r: Snapshot)
    requires Shape(s) && i < NBUF
  {
    var was := s.bufs[i];
    s.(bufs := s.bufs[i := was.(dev := ROOTDEV, blockno := b, valid := false, refcnt := 1)],
       users := s.users[i := 1],
       index := (if was.dev == 0 then s.index else s.index - {was.blockno})[b := i])
  }

  function Lock(s: Snapshot, i: nat): (r: Snapshot)
    requires Shape(s) && i < NBUF
  {
    s.(bufs := s.bufs[i := s.bufs[i].(locked := true)])
  }

  function Load(s: Snapshot, i: nat): (r: Snapshot)
    requires Shape(s) && i < NBUF && s.bufs[i].blockno < |s.disk|
  {
    if s.bufs[i].valid then s
    else s.(bufs := s.bufs[i := s.bufs[i].(valid := true, data := s.disk[s.bufs[i].blockno])])
  }

  function Modify(s: Snapshot, i: nat, d: Block): (r: Snapshot)
    requires Shape(s) && i < NBUF && s.bufs[i].blockno < |s.disk|
  {
    var b := s.bufs[i].blockno;
    s.(bufs := s.bufs[i := s.bufs[i].(data := d)], view := s.view[b := d], modified := s.modified + {b})
  }

  function Write(s: Snapshot, i: nat): (r: Snapshot)
    requires Shape(s) && i < NBUF && s.bufs[i].blockno < |s.disk|
  {
    var b := s.bufs[i].blockno;
    var d := s.disk[b := s.bufs[i].data];
    s.(disk := d, modified := s.modified - {b}, trace := s.trace + [d])
  }

  function Pin(s: Snapshot, i: nat): (r: Snapshot)
    requires Shape(s) && i < NBUF
  {
    var b := s.bufs[i].blockno;
    s.(bufs := s.bufs[i := s.bufs[i].(refcnt := s.bufs[i].refcnt + 1)],
       logged := s.logged + {b}, modified := s.modified - {b})
  }

  /** log_write of a block already in the log: only its bookkeeping changes. */
  function Absorb(s: Snapshot, i: nat): (r: Snapshot)
    requires Shape(s) && i < NBUF
  {
    s.(modified := s.modified - {s.bufs[i].blockno})
  }

  function Unpin(s: Snapshot, i: nat): (r: Snapshot)
    requires Shape(s) && i < NBUF
  {
    s.(bufs := s.bufs[i := s.bufs[i].(refcnt := s.bufs[i].refcnt - 1)], logged := s.logged - {s.bufs[i].blockno})
  }

  function Unlock(s: Snapshot, i: nat): (r: Snapshot)
    requires Shape(s) && i < NBUF
  {
    s.(bufs := s.bufs[i := s.bufs[i].(locked := false)])
  }

  /** One user of buffer i is done with it. */
  function Drop(s: Snapshot, i: nat): (r: Snapshot)
    requires Shape(s) && i < NBUF
  {
    s.(bufs := s.bufs[i := s.bufs[i].(refcnt := s.bufs[i].refcnt - 1)], users := s.users[i := s.users[i] - 1])
  }

  /** The whole effect of `brelse`. */
  function Release(s: Snapshot, i: nat): (r: Snapshot)
    requires Shape(s) && i < NBUF
  {
    Drop(Unlock(s, i), i)
  }

  /** A step that touches only buffer i and its block, and leaves those right, keeps the invariant. */
  lemma LocalInv(s: Snapshot, r: Snapshot, i: nat, b: nat)
    requires Inv(s) && Shape(r) && i < NBUF
    requires s.bufs[i].dev == r.bufs[i].dev == ROOTDEV && s.bufs[i].blockno == r.bufs[i].blockno == b
    requires r.bufs == s.bufs[i := r.bufs[i]] && r.users == s.users[i := r.users[i]] && r.index == s.index
    requires b < |s.disk| == |r.disk| && r.disk == s.disk[b := r.disk[b]] && r.view == s.view[b := r.view[b]]
    requires r.logged - {b} == s.logged - {b} && r.modified - {b} == s.modified - {b}
    requires BufOk(r, i)
    requires b !in r.logged && b !in r.modified ==> r.view[b] == r.disk[b]
    ensures Inv(r)
  {
    forall x ensures x != b ==> (x in r.logged <==> x in s.logged) && (x in r.modified <==> x in s.modified) {
      assert x != b ==> (x in r.logged - {b} <==> x in r.logged) && (x in r.modified - {b} <==> x in r.modified);
    }
    forall j | 0 <= j < NBUF ensures BufOk(r, j) {
      assert BufOk(s, j) && BufOk(s, i);
    }
    forall x | x in r.index ensures Cached(r, x) {
      assert Cached(s, x);
    }
  }

  lemma HitInv(s: Snapshot, i: nat)
    requires Inv(s) && i < NBUF && s.bufs[i].dev != 0
    ensures Inv(Hit(s, i))
  {
    assert BufOk(s, i);
    LocalInv(s, Hit(s, i), i, s.bufs[i].blockno);
  }

  /** Recycling a buffer nobody references changes nothing that a reader can see. */
  lemma RecycleInv(s: Snapshot, i: nat, b: nat)
    requires Inv(s) && i < NBUF && s.bufs[i].refcnt == 0 && b < |s.disk| && b !in s.index
    ensures Inv(Recycle(s, i, b))
  {
    var r := Recycle(s, i, b);
    assert BufOk(s, i);
    forall j | 0 <= j < NBUF ensures BufOk(r, j) {
      assert BufOk(s, j);
    }
    forall x | x in r.index ensures Cached(r, x) {
      assert x != b ==> Cached(s, x);
    }
  }

  lemma LockInv(s: Snapshot, i: nat)
    requires Inv(s) && i < NBUF && s.users[i] > 0
    ensures Inv(Lock(s, i))
  {
    assert BufOk(s, i);
    LocalInv(s, Lock(s, i), i, s.bufs[i].blockno);
  }

  lemma LoadInv(s: Snapshot, i: nat)
    requires Inv(s) && i < NBUF && s.bufs[i].dev != 0
    ensures s.bufs[i].blockno < |s.disk| && Inv(Load(s, i))
  {
    assert BufOk(s, i);
    LocalInv(s, Load(s, i), i, s.bufs[i].blockno);
  }

  lemma ModifyInv(s: Snapshot, i: nat, d: Block)
    requires Inv(s) && i < NBUF && s.bufs[i].locked && s.bufs[i].valid
    ensures s.bufs[i].blockno < |s.disk| && Inv(Modify(s, i, d))
  {
    assert BufOk(s, i);
    LocalInv(s, Modify(s, i, d), i, s.bufs[i].blockno);
  }

  lemma WriteInv(s: Snapshot, i: nat)
    requires Inv(s) && i < NBUF && s.bufs[i].locked && s.bufs[i].valid
    ensures s.bufs[i].blockno < |s.disk| && Inv(Write(s, i))
  {
    assert BufOk(s, i);
    LocalInv(s, Write(s, i), i, s.bufs[i].blockno);
  }

  lemma PinInv(s: Snapshot, i: nat)
    requires Inv(s) && i < NBUF && s.bufs[i].locked && s.bufs[i].valid && s.bufs[i].blockno !in s.logged
    ensures Inv(Pin(s, i))
  {
    assert BufOk(s, i);
    LocalInv(s, Pin(s, i), i, s.bufs[i].blockno);
  }

  lemma AbsorbInv(s: Snapshot, i: nat)
    requires Inv(s) && i < NBUF && s.bufs[i].locked && s.bufs[i].blockno in s.logged
    ensures Inv(Absorb(s, i))
  {
    assert BufOk(s, i);
    LocalInv(s, Absorb(s, i), i, s.bufs[i].blockno);
  }

  lemma UnpinInv(s: Snapshot, i: nat)
    requires Inv(s) && i < NBUF && s.bufs[i].dev != 0 && s.bufs[i].blockno in s.logged
    requires s.bufs[i].blockno < |s.disk| && s.view[s.bufs[i].blockno] == s.disk[s.bufs[i].blockno]
    ensures s.bufs[i].refcnt > 0 && Inv(Unpin(s, i))
  {
    assert BufOk(s, i);
    LocalInv(s, Unpin(s, i), i, s.bufs[i].blockno);
  }

  lemma UnlockInv(s: Snapshot, i: nat)
    requires Inv(s) && i < NBUF && s.bufs[i].locked && s.bufs[i].blockno !in s.modified
    ensures s.users[i] > 0 && Inv(Unlock(s, i))
  {
    assert BufOk(s, i);
    LocalInv(s, Unlock(s, i), i, s.bufs[i].blockno);
  }

  /** The one that drops is not the one that holds the lock, if someone took it meanwhile. */
  lemma DropInv(s: Snapshot, i: nat)
    requires Inv(s) && i < NBUF && s.users[i] > (if s.bufs[i].locked then 1 else 0)
    ensures s.bufs[i].refcnt > 0 && Inv(Drop(s, i))
  {
    assert BufOk(s, i);
    LocalInv(s, Drop(s, i), i, s.bufs[i].blockno);
  }

  /** The effect of `bread`: buffer i is locked with the contents readers must see, one more
      reference is held, and nothing else changed. */
  ghost predicate ReadOf(s: Snapshot, i: nat, b: nat, r: Snapshot)
  {
    && Shape(s) && Shape(r) && i < NBUF && b < |s.view|
    && r.disk == s.disk && r.view == s.view && r.logged == s.logged && r.modified == s.modified && r.trace == s.trace
    && r.bufs == s.bufs[i := Buf(ROOTDEV, b, true, s.bufs[i].refcnt + 1, true, s.view[b])]
    && r.users == s.users[i := s.users[i] + 1]
    && (if b in s.index then i == s.index[b] && r.index == s.index else s.bufs[i].refcnt == 0)
  }

  lemma GotIsRead(s: Snapshot, i: nat, b: nat, g: Snapshot)
    requires Inv(s) && i < NBUF && b < |s.disk|
    requires if b in s.index then i == s.index[b] && g == Hit(s, i) && !s.bufs[i].locked
             else s.bufs[i].refcnt == 0 && g == Recycle(s, i, b)
    ensures g.users[i] > 0 && !g.bufs[i].locked && g.bufs[i].blockno == b && g.bufs[i].dev == ROOTDEV
    ensures ReadOf(s, i, b, Load(Lock(g, i), i))
  {
    assert BufOk(s, i);
    if b in s.index {
      assert Cached(s, b);
    } else {
      assert b !in s.logged && b !in s.modified;
    }
    var r := Load(Lock(g, i), i);
    assert r.bufs == s.bufs[i := Buf(ROOTDEV, b, true, s.bufs[i].refcnt + 1, true, s.view[b])];
  }

  /** An unlocked valid buffer whose block is not in the log equals its disk block; two used
      buffers never name the same block. */
  lemma CacheRefinesDisk(s: Snapshot, i: nat, j: nat)
    requires Inv(s) && i < NBUF && j < NBUF && s.bufs[i].dev != 0
    ensures !s.bufs[i].locked && s.bufs[i].valid && s.bufs[i].blockno !in s.logged
            ==> s.bufs[i].blockno < |s.disk| && s.bufs[i].data == s.disk[s.bufs[i].blockno]
    ensures s.bufs[j].dev == s.bufs[i].dev && s.bufs[j].blockno == s.bufs[i].blockno ==> i == j
  {
    assert BufOk(s, i) && BufOk(s, j);
  }

  /** Linking the buffers at the front one by one leaves them in descending order. */
  lemma DescendingRing(c: seq<nat>, next: seq<nat>, prev: seq<nat>)
    requires |c| == |next| == |prev| == NBUF + 1
    requires forall m :: 0 <= m <= NBUF ==> c[m] == NBUF - m
    requires next[HEAD] == NBUF - 1 && prev[HEAD] == 0
    requires forall j :: 0 <= j < NBUF ==> next[j] == if j == 0 then HEAD else j - 1
    requires forall j :: 0 <= j < NBUF ==> prev[j] == if j == NBUF - 1 then HEAD else j + 1
    ensures Ring(c, c, next, prev)
  {
  }

  class BufferCache {
    const bufs: array<Buf>
    const next: array<nat>
    const prev: array<nat>
    var disk: seq<Block>
    ghost var circle: seq<nat>
    ghost var pos: seq<nat>
    ghost var snap: Snapshot

    ghost predicate Valid()
      reads this, bufs, next, prev
    {
      && next != prev && bufs.Length == NBUF
      && snap.bufs == bufs[..] && snap.disk == disk
      && Ring(circle, pos, next[..], prev[..])
      && Inv(snap)
    }

    constructor (image: seq<Block>)
      ensures Valid() && fresh(bufs) && fresh(next) && fresh(prev)
      ensures disk == snap.view == image && snap.trace == [image]
      ensures snap.index == map[] && snap.logged == {} && snap.modified == {}
      ensures forall i :: 0 <= i < NBUF ==> snap.bufs[i].refcnt == 0 && !snap.bufs[i].locked
    {
      bufs := new Buf[NBUF](_ => Buf(0, 0, false, 0, false, ZeroBlock()));
      next := new nat[NBUF + 1](_ => HEAD);
      prev := new nat[NBUF + 1](_ => HEAD);
      disk := image;
      circle := seq(NBUF + 1, m requires 0 <= m <= NBUF => NBUF - m);
      pos := circle;
      snap := Snapshot(seq(NBUF, _ => Buf(0, 0, false, 0, false, ZeroBlock())), image, seq(NBUF, _ => 0), map[], image,
            {}, {}, [image]);
      new;
      LinkAll();
    }

    /** The loop of `binit`: each buffer linked in behind the head. */
    method LinkAll()
      requires next != prev && next.Length == prev.Length == NBUF + 1 && next[HEAD] == prev[HEAD] == HEAD
      requires |circle| == NBUF + 1 && forall m :: 0 <= m <= NBUF ==> circle[m] == NBUF - m
      modifies next, prev
      ensures Ring(circle, circle, next[..], prev[..])
    {
      var b := 0;
      while b < NBUF
        invariant 0 <= b <= NBUF
        invariant next[HEAD] == (if b == 0 then HEAD else b - 1) && prev[HEAD] == (if b == 0 then HEAD else 0)
        invariant forall j :: 0 <= j < b ==> next[j] == if j == 0 then HEAD else j - 1
        invariant forall j :: 0 <= j < b ==> prev[j] == if j == b - 1 then HEAD else j + 1
      {
        next[b] := next[HEAD];
        prev[b] := HEAD;
        prev[next[HEAD]] := b;
        next[HEAD] := b;
        b := b + 1;
      }
      DescendingRing(circle, next[..], prev[..]);
    }

    /** The first scan of `bget`, from the most recently used buffer. */
    method Lookup(blockno: nat) returns (i: int)
      requires Valid() && blockno < |disk|
      ensures i == -1 <==> blockno !in snap.index
      ensures i != -1 ==> 0 <= i < NBUF && blockno in snap.index && snap.index[blockno] == i
    {
      i := next[HEAD];
      assert next[..][circle[0]] == circle[1];
      ghost var k := 1;
      while i != HEAD
        invariant 1 <= k <= NBUF + 1 && i == circle[if k > NBUF then 0 else k]
        invariant forall j :: 0 <= j < NBUF && pos[j] < k && snap.bufs[j].blockno == blockno ==>
                    snap.bufs[j].dev != ROOTDEV
        decreases NBUF + 1 - k
      {
        if bufs[i].dev == ROOTDEV && bufs[i].blockno == blockno {
          assert BufOk(snap, i);
          return;
        }
        assert next[..][circle[k]] == circle[Succ(k)];
        i := next[i];
        k := k + 1;
      }
      i := -1;
    }

    /** The second scan of `bget`, from the least recently used buffer; -1 is its panic. */
    method LeastRecentlyUsedFree() returns (i: int)
      requires Valid()
      ensures i == -1 <==> forall j :: 0 <= j < NBUF ==> snap.bufs[j].refcnt > 0
      ensures i != -1 ==> 0 <= i < NBUF && snap.bufs[i].refcnt == 0
      ensures i != -1 ==> forall j :: 0 <= j < NBUF && snap.bufs[j].refcnt == 0 ==> pos[j] <= pos[i]
    {
      i := prev[HEAD];
      assert prev[..][circle[0]] == circle[NBUF];
      ghost var k := NBUF;
      while i != HEAD
        invariant 0 <= k <= NBUF && i == circle[k]
        invariant forall j {:trigger pos[j]} :: 0 <= j < NBUF && pos[j] > k ==> snap.bufs[j].refcnt > 0
        decreases k
      {
        assert BufOk(snap, i);
        if bufs[i].refcnt == 0 {
          return;
        }
        assert prev[..][circle[k]] == circle[Pred(k)];
        i := prev[i];
        k := k - 1;
      }
      i := -1;
      forall j | 0 <= j < NBUF ensures snap.bufs[j].refcnt > 0 {
        assert circle[pos[j]] == j;
      }
    }

    /** The region of `bget` under bcache.lock; -1 is its panic.  A cached block is found, else the
        least recently used buffer with no references is recycled. */
    method Bget(blockno: nat) returns (i: int)
      requires Valid() && blockno < |disk|
      modifies this`snap, bufs
      ensures Valid()
      ensures i == -1 <==> blockno !in old(snap).index && forall j :: 0 <= j < NBUF ==> old(snap).bufs[j].refcnt > 0
      ensures i == -1 ==> snap == old(snap)
      ensures i != -1 ==> 0 <= i < NBUF
      ensures i != -1 && blockno in old(snap).index ==> i == old(snap).index[blockno] && snap == Hit(old(snap), i)
      ensures i != -1 && blockno !in old(snap).index ==>
                old(snap).bufs[i].refcnt == 0 && snap == Recycle(old(snap), i, blockno)
      ensures i != -1 && blockno !in old(snap).index ==>
                forall j :: 0 <= j < NBUF && old(snap).bufs[j].refcnt == 0 ==> pos[j] <= pos[i]
    {
      i := Lookup(blockno);
      if i != -1 {
        assert Cached(snap, blockno);
        HitInv(snap, i);
        bufs[i] := bufs[i].(refcnt := bufs[i].refcnt + 1);
        snap := Hit(snap, i);
        return;
      }
      i := LeastRecentlyUsedFree();
      if i != -1 {
        RecycleInv(snap, i, blockno);
        bufs[i] := bufs[i].(dev := ROOTDEV, blockno := blockno, valid := false, refcnt := 1);
        snap := Recycle(snap, i, blockno);
      }
    }

    /** `acquiresleep` on a buffer whose lock is free. */
    method AcquireSleep(i: nat)
      requires Valid() && i < NBUF && !snap.bufs[i].locked && snap.users[i] > 0
      modifies this`snap, bufs
      ensures Valid() && snap == Lock(old(snap), i)
    {
      LockInv(snap, i);
      bufs[i] := bufs[i].(locked := true);
      snap := Lock(snap, i);
    }

    /** The rest of `bread`: read the block unless the buffer already holds it. */
    method ReadIn(i: nat)
      requires Valid() && i < NBUF && snap.bufs[i].locked && snap.bufs[i].dev != 0
      modifies this`snap, bufs
      ensures old(snap).bufs[i].blockno < |disk|
      ensures Valid() && snap == Load(old(snap), i)
    {
      LoadInv(snap, i);
      if !bufs[i].valid {
        bufs[i] := bufs[i].(valid := true, data := disk[bufs[i].blockno]);
      }
      snap := Load(snap, i);
    }

    /** `bread` when no one else holds the block and `bget` finds a buffer. */
    method Bread(blockno: nat) returns (i: nat)
      requires Valid() && blockno < |snap.disk|
      requires blockno in snap.index && snap.index[blockno] < NBUF ==> !snap.bufs[snap.index[blockno]].locked
      requires blockno in snap.index || exists j :: 0 <= j < NBUF && snap.bufs[j].refcnt == 0
      modifies this`snap, bufs
      ensures Valid() && ReadOf(old(snap), i, blockno, snap)
    {
      ghost var s := snap;
      var g := Bget(blockno);
      i := g;
      GotIsRead(s, i, blockno, snap);
      AcquireSleep(i);
      ReadIn(i);
    }

    /** The lock holder looks at the data. */
    method Data(i: nat) returns (d: Block)
      requires Valid() && i < NBUF
      ensures d == snap.bufs[i].data
    {
      d := bufs[i].data;
    }

    method Blockno(i: nat) returns (b: nat)
      requires Valid() && i < NBUF
      ensures b == snap.bufs[i].blockno
    {
      b := bufs[i].blockno;
    }

    /** The caller stores `d` into a buffer it has locked. */
    method Store(i: nat, d: Block)
      requires Valid() && i < NBUF && snap.bufs[i].locked && snap.bufs[i].valid
      modifies this`snap, bufs
      ensures old(snap).bufs[i].blockno < |old(snap).disk|
      ensures Valid() && snap == Modify(old(snap), i, d)
    {
      ModifyInv(snap, i, d);
      bufs[i] := bufs[i].(data := d);
      snap := Modify(snap, i, d);
    }

    method Bwrite(i: nat)
      requires Valid() && i < NBUF && snap.bufs[i].locked && snap.bufs[i].valid
      modifies this`snap, this`disk
      ensures old(snap).bufs[i].blockno < |old(snap).disk|
      ensures Valid() && snap == Write(old(snap), i)
    {
      WriteInv(snap, i);
      disk := disk[bufs[i].blockno := bufs[i].data];
      snap := Write(snap, i);
    }

    method Bpin(i: nat)
      requires Valid() && i < NBUF && snap.bufs[i].locked && snap.bufs[i].valid && snap.bufs[i].blockno !in snap.logged
      modifies this`snap, bufs
      ensures Valid() && snap == Pin(old(snap), i)
    {
      PinInv(snap, i);
      bufs[i] := bufs[i].(refcnt := bufs[i].refcnt + 1);
      snap := Pin(snap, i);
    }

    /** A logged block was logged again. */
    ghost method NoteLogged(i: nat)
      requires Valid() && i < NBUF && snap.bufs[i].locked && snap.bufs[i].blockno in snap.logged
      modifies this`snap
      ensures Valid() && snap == Absorb(old(snap), i)
    {
      AbsorbInv(snap, i);
      snap := Absorb(snap, i);
    }

    /** Only the log unpins, once the block is in its home location. */
    method Bunpin(i: nat)
      requires Valid() && i < NBUF && snap.bufs[i].dev != 0 && snap.bufs[i].blockno in snap.logged
      requires snap.bufs[i].blockno < |snap.disk| == |snap.view|
      requires snap.view[snap.bufs[i].blockno] == snap.disk[snap.bufs[i].blockno]
      modifies this`snap, bufs
      ensures Valid() && snap == Unpin(old(snap), i)
    {
      UnpinInv(snap, i);
      bufs[i] := bufs[i].(refcnt := bufs[i].refcnt - 1);
      snap := Unpin(snap, i);
    }

    /** A modified buffer must be written or logged before it is released. */
    method Brelse(i: nat)
      requires Valid() && i < NBUF && snap.bufs[i].locked && snap.bufs[i].blockno !in snap.modified
      modifies this`snap, this`circle, this`pos, bufs, next, prev
      ensures Valid() && snap == Release(old(snap), i)
      ensures 0 < old(pos[i]) <= NBUF && |old(circle)| == NBUF + 1
      ensures circle == if snap.bufs[i].refcnt == 0 then ToFront(old(circle), old(pos[i])) else old(circle)
    {
      ReleaseSleep(i);
      DropRef(i);
    }

    /** `releasesleep` of a buffer: a waiter can take the lock before the reference is dropped. */
    method ReleaseSleep(i: nat)
      requires Valid() && i < NBUF && snap.bufs[i].locked && snap.bufs[i].blockno !in snap.modified
      modifies this`snap, bufs
      ensures Valid() && snap == Unlock(old(snap), i) && snap.users[i] > 0
    {
      UnlockInv(snap, i);
      bufs[i] := bufs[i].(locked := false);
      snap := Unlock(snap, i);
    }

    /** The region of `brelse` under bcache.lock, by a user that does not hold the buffer's lock. */
    method DropRef(i: nat)
      requires Valid() && i < NBUF && snap.users[i] > (if snap.bufs[i].locked then 1 else 0)
      modifies this`snap, this`circle, this`pos, bufs, next, prev
      ensures Valid() && snap == Drop(old(snap), i)
      ensures 0 < old(pos[i]) <= NBUF && |old(circle)| == NBUF + 1
      ensures circle == if snap.bufs[i].refcnt == 0 then ToFront(old(circle), old(pos[i])) else old(circle)
    {
      DropInv(snap, i);
      assert circle[pos[i]] == i;
      bufs[i] := bufs[i].(refcnt := bufs[i].refcnt - 1);
      snap := Drop(snap, i);
      if bufs[i].refcnt == 0 {
        MoveToFront(i);
      }
    }

    /** The six pointer assignments at the end of `brelse`. */
    method MoveToFront(i: nat)
      requires next != prev && Ring(circle, pos, next[..], prev[..]) && i < NBUF
      modifies this`circle, this`pos, next, prev
      ensures Ring(circle, pos, next[..], prev[..])
      ensures 0 < old(pos[i]) <= NBUF && |old(circle)| == NBUF + 1
      ensures circle == ToFront(old(circle), old(pos[i])) && circle[1] == i && pos[i] == 1
      ensures forall x, y :: 0 <= x < NBUF && 0 <= y < NBUF && x != i && y != i && old(pos)[x] < old(pos)[y] ==>
                pos[x] < pos[y]
    {
      ghost var n, p, k := next[..], prev[..], pos[i];
      assert circle[k] == i && circle[0] == HEAD;
      assert n[circle[k]] == circle[Succ(k)] && p[circle[k]] == circle[Pred(k)] && n[circle[0]] == circle[1];
      prev[next[i]] := prev[i];
      next[prev[i]] := next[i];
      next[i] := next[HEAD];
      prev[i] := HEAD;
      prev[next[HEAD]] := i;
      next[HEAD] := i;
      ghost var n1: seq<nat>, p1: seq<nat> := n[p[i] := n[i]], p[n[i] := p[i]];
      assert next[..] == n1[i := n1[HEAD]][HEAD := i];
      assert prev[..] == p1[i := HEAD][n1[HEAD] := i];
      Relink(circle, pos, n, p, k, next[..], prev[..]);
      ghost var was := pos;
      forall x, y | 0 <= x < NBUF && 0 <= y < NBUF && x != i && y != i && was[x] < was[y]
        ensures ToFrontPos(was, k)[x] < ToFrontPos(was, k)[y]
      {
        FrontOrder(circle, was, i, x, y);
      }
      circle, pos := ToFront(circle, k), ToFrontPos(pos, k);
    }
  }
}
