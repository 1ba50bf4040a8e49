/** What kfork gives the child of a paged process (kernel/proc.c, kernel/vm.c). */
module PagingFork {
  import opened Blocks
  import opened Bits
  import opened FsContent
  import opened PagingState
  import opened PagingSteps
  import opened Paging

  /** kfork copies the records of this many pages. */
  const NCOPIED := 16384

  const NoPage := Info(Unmapped, false, 0, 0, false)

  /** The record of page v in the child. */
  ghost predicate RecordCopied(p: Info, c: Info, v: nat)
  {
    && (c.state == if p.state == Resident && v < NCOPIED then Resident else Unmapped)
    && (c.state == Resident ==> c.fromExec == p.fromExec && !c.dirty && c.slot == -1)
  }

  /** `queue` lists the resident pages among the first n of `child` by page number, numbered from 1. */
  ghost predicate Numbered(child: seq<Info>, n: nat, queue: seq<nat>)
    requires n <= |child|
  {
    && (forall v :: 0 <= v < |child| ==> (child[v].state == Resident <==> v in queue))
    && (forall a {:trigger queue[a]} :: 0 <= a < |queue| ==> queue[a] < n && child[queue[a]].fifoSeq == a + 1)
    && (forall a, b :: 0 <= a < b < |queue| ==> queue[a] < queue[b])
  }

  /** The loop of kfork over the page records: the child has exactly the resident pages among the first
      16384, in page order in its queue, and nothing swapped. */
  method CopyRecords(pages: seq<Info>) returns (child: seq<Info>, nextSeq: int, ghost queue: seq<nat>)
    requires |pages| == NPAGES
    ensures |child| == NPAGES && forall v :: 0 <= v < NPAGES ==> RecordCopied(pages[v], child[v], v)
    ensures QueueOk(child, nextSeq, queue) && forall a, b :: 0 <= a < b < |queue| ==> queue[a] < queue[b]
  {
    child, nextSeq, queue := seq(NPAGES, _ => NoPage), 1, [];
    var j := 0;
    while j < NCOPIED
      invariant 0 <= j <= NCOPIED && |child| == NPAGES && nextSeq == |queue| + 1 && |queue| <= j
      invariant Numbered(child, j, queue)
      invariant forall v :: 0 <= v < j ==> RecordCopied(pages[v], child[v], v)
      invariant forall v :: j <= v < NPAGES ==> child[v] == NoPage
    {
      if pages[j].state == Resident {
        child := child[j := Info(Resident, false, nextSeq, -1, pages[j].fromExec)];
        nextSeq := nextSeq + 1;
        queue := queue + [j];
      } else {
        child := child[j := child[j].(state := Unmapped)];
      }
      j := j + 1;
    }
  }

  // ----- uvmcopy

  /** The page-table pages of page v added where they are missing. */
  function Tabled(c: Memory, v: nat): (r: Memory)
    requires |c.free| >= Missing(c, v)
  {
    var d := if v / 512 / 512 in c.tables1 then c else AddTable(c, v);
    if v / 512 in d.tables0 then d else AddTable(d, v)
  }

  /** `c` has copies of the pages of `m` below n, in frames that were on m's free list. */
  ghost predicate CopiedTo(m: Memory, c: Memory, n: nat)
  {
    && FramesOk(c) && (forall f :: f in c.free ==> f in m.free)
    && (forall v :: v in c.pt <==> v in m.pt && v < n)
    && (forall v :: v in c.pt ==> CopiedPage(m, c, v))
  }

  ghost predicate CopiedPage(m: Memory, c: Memory, v: nat)
    requires v in c.pt && v in m.pt
  {
    FrameAt(c, v) == FrameAt(m, v) && c.pt[v].writable == m.pt[v].writable && HasTables(c, v) && c.pt[v].frame in m.free
  }

  /** The frames uvmcopy needs for the pages from i to n, given the page-table pages the child has. */
  function CopyNeed(pt: map<nat, Pte>, t1: set<nat>, t0: set<nat>, i: nat, n: nat): (k: nat)
    decreases n - i
  {
    if i >= n then 0
    else if i !in pt then CopyNeed(pt, t1, t0, i + 1, n)
    else
      1 + (if i / 512 / 512 in t1 then 0 else 1) + (if i / 512 in t0 then 0 else 1)
      + CopyNeed(pt, t1 + {i / 512 / 512}, t0 + {i / 512}, i + 1, n)
  }

  /** One page copied: kalloc, memmove, mappages. */
  function CopyOne(m: Memory, c: Memory, v: nat): (r: Memory)
    requires v in m.pt && c.free != [] && |c.free| > Missing(c, v)
  {
    MapFrame(Tabled(PopFree(c), v), v, c.free[0], FrameAt(m, v), m.pt[v].writable)
  }

  lemma TabledFacts(c: Memory, v: nat)
    requires FramesOk(c) && |c.free| >= Missing(c, v)
    ensures var r := Tabled(c, v);
            && FramesOk(r) && SameMapping(c, r) && HasTables(r, v) && |r.free| == |c.free| - Missing(c, v)
            && r.tables1 == c.tables1 + {v / 512 / 512} && r.tables0 == c.tables0 + {v / 512}
            && (forall f :: f in r.free ==> f in c.free)
            && forall f :: LooseFrame(c, f) ==> LooseFrame(r, f)
  {
    if v / 512 / 512 !in c.tables1 {
      AddTableOk(c, v);
    }
    var d := if v / 512 / 512 in c.tables1 then c else AddTable(c, v);
    if v / 512 !in d.tables0 {
      AddTableOk(d, v);
    }
  }

  /** `r` is `c` with a copy of page v of `m` in frame f. */
  ghost predicate Extends(m: Memory, c: Memory, r: Memory, v: nat, f: nat)
    requires v in m.pt
  {
    && FramesOk(r) && (forall x :: x in r.free ==> x in c.free)
    && r.pt == c.pt[v := Pte(f, m.pt[v].writable)] && FrameAt(r, v) == FrameAt(m, v) && HasTables(r, v)
    && forall u :: u in c.pt ==> FrameAt(r, u) == FrameAt(c, u) && (HasTables(c, u) ==> HasTables(r, u))
  }

  lemma CopyOneFrames(m: Memory, c: Memory, v: nat)
    requires FramesOk(c) && v in m.pt && v !in c.pt && |c.free| > Missing(c, v)
    ensures var r, f := CopyOne(m, c, v), c.free[0];
            && FramesOk(r) && |r.free| == |c.free| - 1 - Missing(c, v) && (forall x :: x in r.free ==> x in c.free)
            && r.pt == c.pt[v := Pte(f, m.pt[v].writable)] && FrameAt(r, v) == FrameAt(m, v)
            && r.tables1 == c.tables1 + {v / 512 / 512} && r.tables0 == c.tables0 + {v / 512}
            && forall u :: u in c.pt ==> FrameAt(r, u) == FrameAt(c, u)
  {
    hide FramesOk, Tabled;
    var d, f := PopFree(c), c.free[0];
    PopFreeOk(c);
    TabledFacts(d, v);
    var e := Tabled(d, v);
    MapFrameOk(e, v, f, FrameAt(m, v), m.pt[v].writable);
    forall u | u in c.pt ensures FrameAt(CopyOne(m, c, v), u) == FrameAt(c, u) {
      MappedApart(e, f, u);
      assert FrameAt(e, u) == FrameAt(c, u);
    }
  }

  lemma MappedApart(m: Memory, f: nat, u: nat)
    requires FramesOk(m) && LooseFrame(m, f) && u in m.pt
    ensures m.pt[u].frame != f
  {
  }

  lemma CopyOneFacts(m: Memory, c: Memory, v: nat)
    requires FramesOk(c) && v in m.pt && v !in c.pt && |c.free| > Missing(c, v)
    ensures var r := CopyOne(m, c, v);
            && Extends(m, c, r, v, c.free[0]) && |r.free| == |c.free| - 1 - Missing(c, v)
            && r.tables1 == c.tables1 + {v / 512 / 512} && r.tables0 == c.tables0 + {v / 512}
  {
    hide CopyOne, FramesOk, FrameAt, Missing;
    CopyOneFrames(m, c, v);
    var r := CopyOne(m, c, v);
    assert HasTables(r, v);
    hide HasTables;
    forall u | u in c.pt ensures HasTables(c, u) ==> HasTables(r, u) {
      TablesStay(c, r, u);
    }
  }

  lemma TablesStay(c: Memory, r: Memory, u: nat)
    requires c.tables1 <= r.tables1 && c.tables0 <= r.tables0
    ensures HasTables(c, u) ==> HasTables(r, u)
  {
  }

  lemma ExtendsOk(m: Memory, c: Memory, r: Memory, v: nat, f: nat)
    requires CopiedTo(m, c, v) && v in m.pt && Extends(m, c, r, v, f) && f in c.free
    ensures CopiedTo(m, r, v + 1)
  {
    hide FramesOk, FrameAt, HasTables;
    forall u | u in r.pt ensures CopiedPage(m, r, u) {
      if u != v {
        assert CopiedPage(m, c, u);
      }
    }
  }

  lemma CopyOneOk(m: Memory, c: Memory, v: nat)
    requires CopiedTo(m, c, v) && v in m.pt && |c.free| > Missing(c, v)
    ensures var r := CopyOne(m, c, v);
            && CopiedTo(m, r, v + 1) && |r.free| == |c.free| - 1 - Missing(c, v)
            && r.tables1 == c.tables1 + {v / 512 / 512} && r.tables0 == c.tables0 + {v / 512}
  {
    hide CopyOne, Extends, Missing;
    assert FramesOk(c) && v !in c.pt;
    hide FramesOk, CopiedTo;
    CopyOneFacts(m, c, v);
    ExtendsOk(m, c, CopyOne(m, c, v), v, c.free[0]);
  }

  /** uvmcopy of the pages below n into a page table with the page-table pages t1 and t0: it succeeds exactly if
      the free list has a frame for every page and every page-table page that is missing. */
  method CopyPages(m: Memory, t1: set<nat>, t0: set<nat>, n: nat) returns (ok: bool, c: Memory)
    requires FramesOk(m)
    ensures ok <==> |m.free| >= CopyNeed(m.pt, t1, t0, 0, n)
    ensures ok ==> CopiedTo(m, c, n)
  {
    c := Memory(map[], t1, t0, map[], m.free, map[]);
    var i := 0;
    while i < n
      invariant 0 <= i <= n && CopiedTo(m, c, i)
      invariant |c.free| - CopyNeed(m.pt, c.tables1, c.tables0, i, n) == |m.free| - CopyNeed(m.pt, t1, t0, 0, n)
    {
      hide CopiedTo;
      if i in m.pt {
        if |c.free| < 1 + Missing(c, i) {
          return false, c;
        }
        CopyOneOk(m, c, i);
        c := CopyOne(m, c, i);
      } else {
        CopySkip(m, c, i);
      }
      i := i + 1;
    }
    ok := true;
  }

  lemma CopySkip(m: Memory, c: Memory, v: nat)
    requires CopiedTo(m, c, v) && v !in m.pt
    ensures CopiedTo(m, c, v + 1)
  {
  }

  /** `c` is the child of `s`: uvmcopy has copied every mapped page below sz to a frame of its own, the
      records are copied, there is no swap file, and what the child starts from is what it sees. */
  ghost predicate Forked(s: State, c: State)
  {
    && c.lay == s.lay && c.sz == s.sz && FramesOk(c.mem)
    && (forall v :: v in c.mem.pt <==> v in s.mem.pt && v * PGSIZE < s.sz)
    && (forall v :: v in c.mem.pt ==>
          FrameAt(c.mem, v) == FrameAt(s.mem, v) && c.mem.pt[v].writable == s.mem.pt[v].writable && HasTables(c.mem, v))
    && |c.pages| == |s.pages| && (forall v :: 0 <= v < |c.pages| ==> RecordCopied(s.pages[v], c.pages[v], v))
    && QueueOk(c.pages, c.nextSeq, c.queue)
    && NoneSwapped(c.swap) && !c.swap.hasFile
    && c.flat == map v | v in c.mem.pt && InHeap(c, v) :: FrameAt(c.mem, v)
  }

  lemma ForkLinks(s: State, c: State)
    requires LinksOk(s) && Forked(s, c)
    ensures LinksOk(c)
  {
    forall v | 0 <= v < NPAGES ensures LinkOk(c, v) {
      assert LinkOk(s, v) && RecordCopied(s.pages[v], c.pages[v], v);
      assert s.sz <= v * PGSIZE ==> Untouched(s, v);
    }
    forall v: nat | c.sz <= v * PGSIZE < TRAPFRAME * PGSIZE ensures Untouched(c, v) {
      assert Untouched(s, v);
      assert v < NPAGES ==> RecordCopied(s.pages[v], c.pages[v], v);
    }
  }

  lemma NoSlots(w: Swap, pages: seq<Info>)
    requires NoneSwapped(w) && |pages| == NPAGES
    requires forall v :: 0 <= v < NPAGES ==> pages[v].state != Swapped
    ensures SlotsOk(w, pages)
  {
    forall k | 0 <= k < NSLOTS ensures !BitAt(w.bitmap, k) {
      NoBitInZero(k % 8);
    }
    PopCountZero(w.bitmap, NSLOTS);
  }

  /** The child is a paged process like any other: from here on its memory, too, behaves as a flat one. */
  lemma ForkInv(s: State, c: State)
    requires Inv(s) && Forked(s, c)
    ensures Inv(c)
  {
    ForkLinks(s, c);
    forall v | 0 <= v < NPAGES ensures c.pages[v].state != Swapped {
      assert RecordCopied(s.pages[v], c.pages[v], v);
    }
    NoSlots(c.swap, c.pages);
    hide SlotsOk, QueueOk;
    forall v: nat {:trigger View(c, v)} | InText(c.lay, v) ensures View(c, v) == TextPage(c.lay, v) {
      assert View(s, v) == TextPage(s.lay, v);
      ForkContents(s, c, v);
    }
  }

  /** A text or heap page reads the same in the child if and only if the parent did not have it swapped
      out with something other than zeroes in it: kfork copies no swapped page. */
  lemma ForkContents(s: State, c: State, v: nat)
    requires Inv(s) && Forked(s, c) && (InText(s.lay, v) || InHeap(s, v))
    ensures View(c, v) == View(s, v) <==>
              (v < NPAGES && s.pages[v].state == Swapped ==> SlotPage(s.swap.file, s.pages[v].slot) == Fill(0))
  {
    assert v < NPAGES ==> LinkOk(s, v) && RecordCopied(s.pages[v], c.pages[v], v);
  }

  /** Swapping a page out, which the process itself cannot notice, is noticed by its child. */
  lemma ForkAfterSwapOut(s: State, v: nat, a: nat, k: nat, c: State)
    requires Inv(s) && CanSwapOut(s, v, a, k) && v in s.mem.pt && k * PGSIZE <= |s.swap.file|
    requires Forked(SwapOut(s, v, a, k), c)
    ensures View(SwapOut(s, v, a, k), v) == View(s, v)
    ensures View(c, v) == View(s, v) <==> View(s, v) == Fill(0)
  {
    var r := SwapOut(s, v, a, k);
    SwapOutFacts(s, v, a, k);
    SwapOutInv(s, v, a, k);
    SwapOutView(s, v, a, k, v);
    hide Inv, Forked, CanSwapOut;
    ForkContents(r, c, v);
  }

  // ----- kfork

  /** The pages of sz bytes: uvmcopy steps through them. */
  function PageCount(sz: nat): (n: nat)
    ensures forall v: nat :: v < n <==> v * PGSIZE < sz
  {
    (sz + PGSIZE - 1) / PGSIZE
  }

  lemma ParentKept(s: State, c: Memory)
    requires Inv(s) && FramesOk(c) && forall f :: f in c.free ==> f in s.mem.free
    ensures var r := s.(mem := s.mem.(free := c.free)); Inv(r) && SameView(s, r)
  {
    assert FramesOk(s.mem);
    var m := s.mem.(free := c.free);
    forall i | 0 <= i < |m.free| ensures m.free[i] !in m.frameOf {
      assert c.free[i] in s.mem.free;
    }
    hide Inv;
    SameMappingInv(s, m);
  }

  lemma IsForked(s: State, c: State)
    requires Inv(s) && CopiedTo(s.mem, c.mem, PageCount(s.sz)) && c.lay == s.lay && c.sz == s.sz
    requires |c.pages| == NPAGES && (forall v :: 0 <= v < NPAGES ==> RecordCopied(s.pages[v], c.pages[v], v))
    requires QueueOk(c.pages, c.nextSeq, c.queue) && NoneSwapped(c.swap) && !c.swap.hasFile
    requires c.flat == map v | v in c.mem.pt && InHeap(c, v) :: FrameAt(c.mem, v)
    ensures Forked(s, c)
  {
    assert |s.pages| == NPAGES;
    hide Inv, QueueOk, RecordCopied, FramesOk;
    forall v | v in c.mem.pt
      ensures FrameAt(c.mem, v) == FrameAt(s.mem, v) && c.mem.pt[v].writable == s.mem.pt[v].writable
      ensures HasTables(c.mem, v)
    {
      assert CopiedPage(s.mem, c.mem, v);
    }
  }

  /** The child kfork makes of the copies: no swap file (`file` is what create_swap_file will find), and a flat
      memory that holds what it sees. */
  ghost function Child(s: State, mem: Memory, pages: seq<Info>, nextSeq: int, queue: seq<nat>, file: seq<Byte>)
    : (c: State)
    ensures c.swap.file == file
    ensures c.mem == mem && c.pages == pages && c.nextSeq == nextSeq
  {
    var w := Swap(seq(NSLOTS / 8, _ => 0), 0, false, file, map[]);
    var c := State(s.lay, s.sz, mem, w, pages, nextSeq, queue, map[]);
    c.(flat := map v | v in mem.pt && InHeap(c, v) :: FrameAt(mem, v))
  }

  lemma ChildOk(s: State, mem: Memory, pages: seq<Info>, nextSeq: int, queue: seq<nat>, file: seq<Byte>)
    requires |file| <= MAXBYTES
    requires Inv(s) && CopiedTo(s.mem, mem, PageCount(s.sz)) && |s.pages| == |pages| == NPAGES
    requires (forall v :: 0 <= v < NPAGES ==> RecordCopied(s.pages[v], pages[v], v)) && QueueOk(pages, nextSeq, queue)
    ensures var c := Child(s, mem, pages, nextSeq, queue, file); Forked(s, c) && Inv(c)
    ensures var r := s.(mem := s.mem.(free := mem.free)); Inv(r) && SameView(s, r)
    ensures forall v :: v in mem.pt ==> mem.pt[v].frame in s.mem.free
  {
    hide Inv, RecordCopied, QueueOk, SameView, FramesOk;
    var c := Child(s, mem, pages, nextSeq, queue, file);
    IsForked(s, c);
    hide Forked;
    ForkInv(s, c);
    ParentKept(s, mem);
    forall v | v in mem.pt ensures mem.pt[v].frame in s.mem.free {
      assert CopiedPage(s.mem, mem, v);
    }
  }

  /** The memory side of kfork, for a child whose page table has the page-table pages t1 and t0.  It succeeds exactly
      if there are frames for all copies; the child is a paged process of its own, in frames that were free,
      and the parent notices nothing. */
  method Kfork(parent: Pager, t1: set<nat>, t0: set<nat>, ghost file: seq<Byte>)
    returns (ok: bool, mem: Memory, pages: seq<Info>, nextSeq: int, ghost c: State)
    requires Inv(parent.Abs()) && |file| <= MAXBYTES
    modifies parent`mem
    ensures Inv(parent.Abs()) && SameView(old(parent.Abs()), parent.Abs())
    ensures ok <==> |old(parent.mem).free| >= CopyNeed(old(parent.mem).pt, t1, t0, 0, PageCount(parent.sz))
    ensures !ok ==> parent.mem == old(parent.mem)
    ensures ok ==> c.mem == mem && c.pages == pages && c.nextSeq == nextSeq && Forked(old(parent.Abs()), c) && Inv(c)
    ensures ok ==> c.swap.file == file
    ensures ok ==> forall v :: v in mem.pt ==> mem.pt[v].frame in old(parent.mem).free
  {
    ghost var s := parent.Abs();
    assert FramesOk(s.mem) && |s.pages| == NPAGES;
    SameViewSelf(s);
    hide Inv, SameView, Forked, RecordCopied, QueueOk, FramesOk, CopyNeed, CopiedTo, Child;
    ok, mem := CopyPages(parent.mem, t1, t0, PageCount(parent.sz));
    if !ok {
      pages, nextSeq, c := [], 0, s;
      return;
    }
    ghost var queue;
    pages, nextSeq, queue := CopyRecords(parent.pages);
    c := Child(s, mem, pages, nextSeq, queue, file);
    ChildOk(s, mem, pages, nextSeq, queue, file);
    parent.mem := parent.mem.(free := mem.free);
  }

  // ----- a child that reads something else

  /** A process with one heap page and nothing else, and three free frames. */
  const OneHeapPage := Layout(0, 0, 0, 0, 0, 0, 0, 0, 0, [])
  const ThreeFrames := Memory(map[], {}, {}, map[], [7, 8, 9], map[])

  /** The page is in the heap, on no frame yet. */
  ghost predicate NoPageYet(s: State)
  {
    && Inv(s) && s.lay == OneHeapPage && s.sz == PGSIZE && s.mem == ThreeFrames && s.queue == [] && s.nextSeq == 1
    && s.pages[0].state == Unmapped && s.swap.hasFile && SlotLeft(s.swap)
  }

  /** The page is mapped and resident and its first byte is b. */
  ghost predicate Holds(s: State, b: Byte)
  {
    && Inv(s) && s.lay == OneHeapPage && s.sz == PGSIZE && 0 in s.mem.pt && s.mem.pt[0].writable && s.queue == [0]
    && s.pages[0].state == Resident && s.swap.hasFile && SlotLeft(s.swap) && View(s, 0)[0] == b
  }

  /** Page 0 is swapped out with b in its first byte, and nothing is mapped below sz. */
  ghost predicate SwappedAway(s: State, b: Byte)
  {
    Inv(s) && s.lay == OneHeapPage && s.sz == PGSIZE && 0 !in s.mem.pt && View(s, 0)[0] == b
  }

  lemma FirstSlotLeft(w: Swap)
    requires NoneSwapped(w)
    ensures SlotLeft(w)
  {
    NoBitInZero(0);
    assert !BitAt(w.bitmap, 0);
  }

  lemma WillBeServed(s: State, env: Env)
    requires NoPageYet(s)
    ensures Served(s, 0, env) && |s.pages| == NPAGES && s.nextSeq < MAXSEQ && s.mem.free != [] && 0 !in s.mem.pt
  {
  }

  lemma MappedHeap(s: State)
    requires Inv(s) && s.lay == OneHeapPage && s.sz == PGSIZE && 0 in s.mem.pt
    ensures s.mem.pt[0].writable && View(s, 0) == FrameAt(s.mem, 0)
  {
    assert InSegment(s, 0);
  }

  lemma FirstIn(s: State, r: State)
    requires Entered(s, r, 0) && s.queue == [] && |s.pages| == NPAGES
    ensures 0 in r.mem.pt && |r.pages| == NPAGES && r.queue == [0] && r.pages[0].state == Resident
  {
  }

  /** The process grows its heap by a page. */
  method GrowOnePage() returns (p: Pager)
    ensures fresh(p) && NoPageYet(p.Abs())
  {
    p := new Pager(OneHeapPage, ThreeFrames, []);
    FirstSlotLeft(p.swap);
    hide Inv, SlotLeft;
    var _ := p.SbrkGrow(PGSIZE);
  }

  method StoreByteOf(p: Pager, b: Byte, env: Env)
    requires NoPageYet(p.Abs())
    modifies p
    ensures Holds(p.Abs(), b)
  {
    WillBeServed(p.Abs(), env);
    hide Inv, SlotLeft, Served, SameView, View, FrameLeft, Entered, DataFault, DataPage;
    var r := p.HandlePageFault(0, 15, env);
    SameViewFacts(old(p.Abs()), p.Abs());
    FirstIn(old(p.Abs()), p.Abs());
    MappedHeap(p.Abs());
    p.PutByte(0, 0, b);
    MappedHeap(p.Abs());
  }

  lemma WillLeave(s: State, b: Byte, env: Env)
    requires Holds(s, b) && env.wrote >= PGSIZE
    ensures CanEvict(s, env)
  {
    assert |s.pages| == NPAGES;
  }

  /** Memory is full for someone else: the page is evicted. */
  method EvictPage(p: Pager, ghost b: Byte, env: Env)
    requires Holds(p.Abs(), b) && env.wrote >= PGSIZE
    modifies p
    ensures SwappedAway(p.Abs(), b)
  {
    WillLeave(p.Abs(), b, env);
    ghost var s := p.Abs();
    hide Inv, SlotLeft, View, CanEvict, SameView;
    var r := p.EvictPageFifo(env);
    SameViewFacts(s, p.Abs());
    SameHeapPage(s, p.Abs());
  }

  lemma SameHeapPage(s: State, r: State)
    requires SameView(s, r) && s.lay == OneHeapPage && s.sz == PGSIZE
    ensures View(r, 0) == View(s, 0)
  {
    assert InHeap(s, 0);
  }

  lemma NothingToCopy(s: State, b: Byte)
    requires SwappedAway(s, b)
    ensures CopyNeed(s.mem.pt, {}, {}, 0, PageCount(s.sz)) == 0
  {
    assert PageCount(s.sz) == 1;
  }

  lemma ChildReadsZero(s: State, b: Byte, c: State)
    requires SwappedAway(s, b) && Forked(s, c)
    ensures View(c, 0) == Fill(0)
  {
    assert |s.pages| == NPAGES;
    assert RecordCopied(s.pages[0], c.pages[0], 0);
  }

  /** Whatever byte the process has stored in a heap page that was swapped out, it still reads it, and its child
      reads zero. */
  method ChildLosesByte(b: Byte, env: Env) returns (p: Pager, ok: bool, ghost c: State)
    requires env.wrote >= PGSIZE
    ensures ok && Inv(p.Abs()) && Inv(c) && p.lay == c.lay && InHeap(c, 0)
    ensures View(p.Abs(), 0)[0] == b && View(c, 0)[0] == 0
  {
    hide Inv, View, Holds, NoPageYet, SameView, Forked;
    p := GrowOnePage();
    StoreByteOf(p, b, env);
    EvictPage(p, b, env);
    ghost var s := p.Abs();
    NothingToCopy(s, b);
    var mem, pages, nextSeq;
    ok, mem, pages, nextSeq, c := Kfork(p, {}, {}, []);
    ChildReadsZero(s, b, c);
    SameViewFacts(s, p.Abs());
    SameHeapPage(s, p.Abs());
    ForkedSame(s, c);
  }

  lemma ForkedSame(s: State, c: State)
    requires Forked(s, c)
    ensures c.lay == s.lay && c.sz == s.sz
  {
  }
}
