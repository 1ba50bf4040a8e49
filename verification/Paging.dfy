/** The page-fault handler, eviction and swapping of kernel/vm.c.  Every method keeps `Inv`, in which
    `Transparent` says that heap pages read as a flat memory and text pages as the program file; so it
    holds over every run of loads, stores, faults and sbrk growth. */
module Paging {
  import opened Blocks
  import opened Bits
  import opened FsContent
  import opened PagingState
  import opened PagingSteps
  import opened PagingEvents

  /** What the rest of the system decides during a fault: whether a swap file can be created, how much of
      a page writei manages to write, and whether another process takes the frame an eviction freed. */
  datatype Env = Env(createOk: bool, wrote: nat, stolen: bool)

  class Pager {
    const lay: Layout
    var sz: nat
    var mem: Memory
    var swap: Swap
    var pages: seq<Info>
    var nextSeq: int
    var killed: bool
    ghost var queue: seq<nat>
    ghost var flat: map<nat, Page>

    ghost function Abs(): State
      reads this
    {
      State(lay, sz, mem, swap, pages, nextSeq, queue, flat)
    }

    /** A fresh process after exec: only stack pages are mapped, the rest is loaded on demand, and `file` is what
        the file that create_swap_file made or found holds. */
    constructor (l: Layout, m: Memory, file: seq<Byte>)
      requires GoodLayout(l) && l.heapStart <= TRAPFRAME * PGSIZE && FramesOk(m) && OnlyStack(l, m)
      requires |file| <= MAXBYTES
      ensures Inv(Abs()) && lay == l && sz == l.heapStart && mem == m && queue == [] && flat == map[] && !killed
      ensures nextSeq == 1 && |pages| == NPAGES && forall v :: 0 <= v < NPAGES ==> pages[v].state == Unmapped
      ensures NoneSwapped(swap) && swap.hasFile && swap.file == file
    {
      lay, sz, mem, killed := l, l.heapStart, m, false;
      pages, nextSeq, queue, flat := seq(NPAGES, i => Info(Unmapped, false, 0, if i < 512 then -1 else 0, false)), 1,
            [], map[];
      swap := Swap(seq(NSLOTS / 8, _ => 0), 0, true, file, map[]);
      new;
      FreshInv(Abs());
    }

    method Kalloc() returns (f: int)
      requires Inv(Abs())
      modifies this`mem
      ensures Inv(Abs()) && SameView(old(Abs()), Abs()) && Pages(old(Abs()), Abs())
      ensures f == -1 <==> old(mem).free == []
      ensures f == -1 ==> mem == old(mem)
      ensures f != -1 ==> 0 <= f && mem == PopFree(old(mem)) && LooseFrame(mem, f)
    {
      if mem.free == [] {
        SameViewSelf(Abs());
        PagesSelf(Abs());
        return -1;
      }
      PopFreeOk(mem);
      SameMappingInv(Abs(), PopFree(mem));
      PagesMoved(Abs(), PopFree(mem));
      f := mem.free[0];
      mem := PopFree(mem);
    }

    /** kfree of a frame that was allocated and never mapped. */
    method Kfree(f: nat)
      requires Inv(Abs()) && LooseFrame(mem, f)
      modifies this`mem
      ensures Inv(Abs()) && SameView(old(Abs()), Abs()) && Pages(old(Abs()), Abs()) && mem == PushFree(old(mem), f)
    {
      PushFreeOk(mem, f);
      SameMappingInv(Abs(), PushFree(mem, f));
      PagesMoved(Abs(), PushFree(mem, f));
      mem := PushFree(mem, f);
    }

    /** walk with alloc for page v: false when a page-table page cannot be allocated.  Page-table pages are
        never taken away, so a page that had them keeps them. */
    method WalkAlloc(v: nat, ghost f: nat) returns (ok: bool)
      requires Inv(Abs()) && LooseFrame(mem, f)
      modifies this`mem
      ensures Inv(Abs()) && SameView(old(Abs()), Abs()) && Pages(old(Abs()), Abs())
      ensures LooseFrame(mem, f) && mem.pt == old(mem).pt
      ensures ok <==> |old(mem).free| >= Missing(old(mem), v)
      ensures ok ==> HasTables(mem, v)
      ensures HasTables(old(mem), v) ==> mem == old(mem)
    {
      hide Inv, SameView, Pages;
      ghost var s0 := Abs();
      SameViewSelf(s0);
      PagesSelf(s0);
      var level := 2;
      while level > 0
        invariant 0 <= level <= 2
        invariant Inv(Abs()) && SameView(s0, Abs()) && Pages(s0, Abs()) && LooseFrame(mem, f) && mem.pt == old(mem).pt
        invariant (level < 2 ==> v / 512 / 512 in mem.tables1) && (level < 1 ==> v / 512 in mem.tables0)
        invariant HasTables(old(mem), v) ==> mem == old(mem)
        invariant |mem.free| - Missing(mem, v) == |old(mem).free| - Missing(old(mem), v)
      {
        if (level == 2 && v / 512 / 512 !in mem.tables1) || (level == 1 && v / 512 !in mem.tables0) {
          if mem.free == [] {
            return false;
          }
          TableStep(s0, Abs(), v);
          mem := AddTable(mem, v);
        }
        level := level - 1;
      }
      ok := true;
    }

    /** The first-fit scan of alloc_swap_slot; -1 when every bit is set. */
    method FirstFreeSlot() returns (k: int)
      requires |swap.bitmap| * 8 == NSLOTS
      ensures k == -1 <==> forall j :: 0 <= j < NSLOTS ==> BitAt(swap.bitmap, j)
      ensures k != -1 ==> 0 <= k && FirstFree(swap.bitmap, k)
    {
      k := 0;
      while k < NSLOTS
        invariant 0 <= k <= NSLOTS && forall j :: 0 <= j < k ==> BitAt(swap.bitmap, j)
      {
        if !BitAt(swap.bitmap, k) {
          return;
        }
        k := k + 1;
      }
      k := -1;
    }

    /** free_swap_slot: out-of-range and free slots are ignored. */
    method FreeSwapSlot(slot: int)
      requires |swap.bitmap| * 8 == NSLOTS
      modifies this`swap
      ensures if 0 <= slot < NSLOTS && BitAt(old(swap).bitmap, slot)
              then swap == old(swap).(bitmap := SetBitAt(old(swap).bitmap, slot, false), used := old(swap).used - 1)
              else swap == old(swap)
    {
      if slot < 0 || slot >= NSLOTS {
        return;
      }
      if BitAt(swap.bitmap, slot) {
        swap := swap.(bitmap := SetBitAt(swap.bitmap, slot, false), used := swap.used - 1);
      }
    }

    /** writei of page v's frame at slot k of the swap file, writing at most `wrote` bytes; the result of
        writei. */
    method WriteSlot(v: nat, k: nat, wrote: nat) returns (r: int)
      requires v in mem.pt
      modifies this`swap
      ensures r == -1 <==> k * PGSIZE > |old(swap).file| || (k + 1) * PGSIZE > MAXBYTES
      ensures r == -1 ==> swap == old(swap)
      ensures r != -1 ==> 0 <= r <= PGSIZE && (r == PGSIZE <==> wrote >= PGSIZE)
                          && swap == old(swap).(file := Splice(old(swap).file, k * PGSIZE, FrameAt(mem, v)[..r]))
    {
      if k * PGSIZE > |swap.file| || (k + 1) * PGSIZE > MAXBYTES {
        return -1;
      }
      r := if wrote < PGSIZE then wrote else PGSIZE;
      swap := swap.(file := Splice(swap.file, k * PGSIZE, FrameAt(mem, v)[..r]));
    }

    /** The clean branch of swapout_page: a page of the program file is simply dropped. */
    method DiscardPage(v: nat, ghost a: nat)
      requires Inv(Abs()) && a < |queue| && queue[a] == v && v < |pages| && pages[v].fromExec && !pages[v].dirty
      modifies this`pages, this`mem, this`queue
      ensures Inv(Abs()) && SameView(old(Abs()), Abs()) && Pages(old(Abs()), Abs())
      ensures v in old(mem).pt && Abs() == Discard(old(Abs()), v, a)
    {
      hide Inv, SameView, Pages, Without;
      DiscardInv(Abs(), v, a);
      PagesDiscard(Abs(), v, a);
      pages := pages[v := pages[v].(state := Unmapped)];
      mem := FreeFrame(mem, v);
      queue := Without(queue, a);
    }

    /** The record of a page that has been written out, its frame freed and its mapping removed. */
    method MarkSwapped(v: nat, ghost a: nat, slot: nat)
      requires v < |pages| && v in mem.pt && a < |queue|
      modifies this`pages, this`swap, this`mem, this`queue
      ensures Abs() == old(Abs()).(pages := old(pages)[v := old(pages)[v].(state := Swapped, slot := slot,
                                                                           fromExec := false)],
                                   swap := old(swap).(slotOf := old(swap).slotOf[slot := v]),
                                   mem := FreeFrame(old(mem), v), queue := Without(old(queue), a))
    {
      pages := pages[v := pages[v].(state := Swapped, slot := slot, fromExec := false)];
      swap := swap.(slotOf := swap.slotOf[slot := v]);
      mem := FreeFrame(mem, v);
      queue := Without(queue, a);
    }

    /** The dirty branch of swapout_page once the swap file is open.  alloc_swap_slot never fails in it: the
        swap file, at 67 pages, runs out long before the 1024 slots do. */
    method WriteOut(v: nat, ghost a: nat, env: Env) returns (r: int)
      requires Inv(Abs()) && a < |queue| && queue[a] == v && v < |pages| && !(pages[v].fromExec && !pages[v].dirty)
      requires swap.hasFile
      modifies this
      ensures Inv(Abs()) && SameView(old(Abs()), Abs()) && Pages(old(Abs()), Abs()) && (r == 0 || r == -1)
      ensures r == -1 ==> mem == old(mem) && pages == old(pages) && nextSeq == old(nextSeq) && queue == old(queue)
      ensures r == 0 <==> env.wrote >= PGSIZE && SlotLeft(old(swap))
      ensures r == 0 ==> WrittenOut(old(Abs()), Abs(), v, a)
    {
      hide Inv, SameView, Pages, WrittenOut, SlotLeft, FirstFree, CanSwapOut, Without, SetBitAt, FreeFrame;
      ghost var s := Abs();
      SomeSlotFree(s);
      var slot := FirstFreeSlot();
      BeforeWriteOut(s, v, a, slot);
      FirstIsLeft(swap, slot);
      swap := swap.(bitmap := SetBitAt(swap.bitmap, slot, true), used := swap.used + 1);
      var n := WriteSlot(v, slot, env.wrote);
      if n != PGSIZE {
        FreeSwapSlot(slot);
        WriteFailed(s, slot, if n == -1 then [] else FrameAt(mem, v)[..n], Abs());
        return -1;
      }
      MarkSwapped(v, a, slot);
      WriteSucceeded(s, v, a, slot, Abs());
      r := 0;
    }

    /** swapout_page: 0 when page v left memory, -1 when nothing the user can see or the pager relies on
        changed. */
    method SwapoutPage(v: nat, env: Env) returns (r: int)
      requires Inv(Abs())
      modifies this
      ensures Inv(Abs()) && SameView(old(Abs()), Abs()) && Pages(old(Abs()), Abs()) && (r == 0 || r == -1)
      ensures r == -1 ==> mem == old(mem) && pages == old(pages) && nextSeq == old(nextSeq) && queue == old(queue)
      ensures r == 0 <==> CanLeave(old(Abs()), v, env)
      ensures v < |old(pages)| && old(pages)[v].state == Resident && old(pages)[v].fromExec && !old(pages)[v].dirty ==>
                r == 0
      ensures v < |old(pages)| && old(pages)[v].state == Resident && env.wrote >= PGSIZE ==>
                (old(swap).hasFile || env.createOk) ==>
                (exists k :: 0 <= k < 67 && k < 8 * |old(swap).bitmap| && !BitAt(old(swap).bitmap, k)) ==> r == 0
      ensures r == 0 ==> Left(old(Abs()), Abs(), v)
    {
      hide Inv, SameView, Pages, Left, Discard, SlotLeft, WrittenOut;
      ghost var s := Abs();
      LeavesIf(s, v, env);
      SameViewSelf(s);
      PagesSelf(s);
      if v >= |pages| || pages[v].state != Resident {
        return -1;
      }
      ghost var a := Position(s, v);
      if !pages[v].dirty && pages[v].fromExec {
        DiscardPage(v, a);
        DiscardLeft(s, v, a);
        return 0;
      }
      if !swap.hasFile {
        if !env.createOk {
          killed := true;
          return -1;
        }
        OpenFile(s);
        PagesOpened(s);
        swap := swap.(hasFile := true);
      }
      ghost var u := Abs();
      OpenedSlots(s.swap, u.swap);
      r := WriteOut(v, a, env);
      SwapoutJoins(s, u, Abs(), v, a, r);
    }

    /** The victim search of evict_page_fifo: the tracked resident page that became resident first. */
    method OldestResident() returns (v: int)
      requires QueueOk(pages, nextSeq, queue)
      ensures v == -1 <==> queue == []
      ensures v != -1 ==> queue != [] && v == queue[0]
    {
      v := -1;
      var minSeq := MAXSEQ;
      var i := 0;
      while i < |pages|
        invariant 0 <= i <= |pages| && -1 <= v < i
        invariant v == -1 ==> minSeq == MAXSEQ
        invariant v != -1 ==> pages[v].state == Resident && pages[v].fifoSeq == minSeq
        invariant forall j :: 0 <= j < i && pages[j].state == Resident ==> minSeq <= pages[j].fifoSeq && v != -1
      {
        if pages[i].state == Resident {
          assert i in queue;
          if pages[i].fifoSeq < minSeq {
            minSeq, v := pages[i].fifoSeq, i;
          }
        }
        i := i + 1;
      }
      assert queue != [] ==> queue[0] in queue && pages[queue[0]].state == Resident;
      assert v != -1 ==> v in queue;
    }

    /** evict_page_fifo: the first page in is the first page out. */
    method EvictPageFifo(env: Env) returns (r: int)
      requires Inv(Abs())
      modifies this
      ensures Inv(Abs()) && SameView(old(Abs()), Abs()) && Pages(old(Abs()), Abs()) && (r == 0 || r == -1)
      ensures r == -1 ==> mem == old(mem) && pages == old(pages) && nextSeq == old(nextSeq) && queue == old(queue)
      ensures r == 0 <==> CanEvict(old(Abs()), env)
      ensures r == 0 ==> Left(old(Abs()), Abs(), old(queue)[0])
    {
      var v := OldestResident();
      hide Inv, SameView, Pages, Left;
      if v < 0 {
        SameViewSelf(Abs());
        PagesSelf(Abs());
        return -1;
      }
      r := SwapoutPage(v, env);
    }

    /** kalloc and, when memory is full, one eviction and a second kalloc; another process may take the
        frame in between. */
    method FrameForFault(env: Env) returns (f: int)
      requires Inv(Abs())
      modifies this
      ensures Inv(Abs()) && SameView(old(Abs()), Abs()) && Pages(old(Abs()), Abs()) && RoomMade(old(Abs()), Abs())
      ensures f == -1 || (0 <= f && LooseFrame(mem, f))
      ensures f != -1 <==> FrameLeft(old(Abs()), env, 0)
      ensures old(mem).free != [] ==> f != -1
      ensures f != -1 ==> |mem.free| == if old(mem).free == [] then 0 else |old(mem).free| - 1
      ensures old(mem).free != [] ==> queue == old(queue) && swap == old(swap)
    {
      hide Inv, SameView, Pages, RoomMade, CanLeave;
      ghost var s := Abs();
      f := Kalloc();
      RoomAfterPop(s, Abs());
      if f != -1 {
        return;
      }
      var r := EvictPageFifo(env);
      if r < 0 {
        RoomAfterFailure(s, Abs());
        return;
      }
      ghost var u := Abs();
      RoomAfterLeft(s, u, s.queue[0]);
      if env.stolen {
        var _ := Kalloc();
      }
      ghost var w := Abs();
      assert env.stolen || w == u;
      SameViewSelf(u);
      PagesSelf(u);
      RoomAfterPop(u, w);
      f := Kalloc();
      RoomAfterPop(w, Abs());
      RoomTrans(s, u, w);
      RoomTrans(s, w, Abs());
    }

    /** swapin_page: the bytes that were swapped out come back and the slot is freed.  mappages cannot fail
        here, as the page-table pages were kept; if it could, the slot would already be gone. */
    method SwapinPage(v: nat, env: Env) returns (r: int)
      requires Inv(Abs()) && nextSeq < MAXSEQ
      modifies this
      ensures Inv(Abs()) && SameView(old(Abs()), Abs()) && Pages(old(Abs()), Abs()) && (r == 0 || r == -1)
      ensures r == 0 ==> Entered(old(Abs()), Abs(), v)
      ensures r == 0 <==> v < |old(pages)| && old(pages)[v].state == Swapped && FrameLeft(old(Abs()), env, 0)
    {
      ghost var s := Abs();
      SameViewSelf(s);
      PagesSelf(s);
      assert v < |pages| && pages[v].state == Swapped ==> pages[v].slot >= 0;
      if v >= |pages| || pages[v].state != Swapped || pages[v].slot < 0 {
        return -1;
      }
      hide Inv, SameView, Pages, RoomMade, Entered, FrameLeft;
      var slot := pages[v].slot;
      var f := FrameForFault(env);
      ghost var u := Abs();
      if f == -1 {
        return -1;
      }
      RoomKeepsOut(s, u, v);
      BringIn(v, f, slot);
      SwapinDone(s, u, Abs(), v, f);
      r := 0;
    }

    /** swapin_page once it has a frame. */
    method BringIn(v: nat, f: nat, slot: nat)
      requires Inv(Abs()) && v < |pages| && pages[v].state == Swapped && pages[v].slot == slot && nextSeq < MAXSEQ
      requires LooseFrame(mem, f)
      modifies this
      ensures slot < NSLOTS == 8 * |old(swap).bitmap| && Abs() == SwapIn(old(Abs()), v, f)
      ensures Inv(Abs()) && SameView(old(Abs()), Abs()) && Pages(old(Abs()), Abs())
    {
      hide Inv, SameView, Pages, SetBitAt, SlotPage, HasTables, Fill, BitAt;
      SwapInInv(Abs(), v, f);
      PagesIn(Abs(), v, f);
      ReadSlot(Abs(), v);
      var p := SlotPage(swap.file, slot);
      FreeSwapSlot(slot);
      swap := swap.(slotOf := swap.slotOf - {slot});
      pages := pages[v := pages[v].(slot := -1)];
      mem := MapFrame(mem, v, f, p, true);
      pages := pages[v := pages[v].(state := Resident, dirty := false, fifoSeq := nextSeq)];
      nextSeq := nextSeq + 1;
      queue := queue + [v];
    }

    /** The common end of a fault that fills frame f with p: mappages and, for a tracked page, its record. */
    method MapFault(v: nat, f: nat, p: Page, writable: bool, info: Info) returns (r: int)
      requires Inv(Abs()) && LooseFrame(mem, f) && nextSeq < MAXSEQ && Absent(Abs(), v)
      requires writable == !InText(lay, v)
      requires if InHeap(Abs(), v) then !info.fromExec else info.fromExec && !info.dirty
      requires InHeap(Abs(), v) || InText(lay, v) ==> p == View(Abs(), v)
      requires DataOnly(lay, v) ==> p == DataPage(lay, v)
      modifies this
      ensures Inv(Abs()) && SameView(old(Abs()), Abs()) && Pages(old(Abs()), Abs()) && (r == 0 || r == -1)
      ensures r == 0 <==> |old(mem).free| >= Missing(old(mem), v)
      ensures r == 0 ==> Arrived(old(Abs()), Abs(), v) && View(Abs(), v) == p
      ensures swap == old(swap)
    {
      hide Inv, SameView, Pages, Absent, Arrived, InText, InHeap, View;
      ghost var s := Abs();
      var ok := WalkAlloc(v, f);
      ghost var u := Abs();
      if !ok {
        Kfree(f);
        SameViewTrans(s, u, Abs());
        PagesTrans(s, u, Abs());
        return -1;
      }
      BeforeMap(s, u, v, f, p, writable, info);
      mem := MapFrame(mem, v, f, p, writable);
      if v < |pages| {
        pages := pages[v := info.(state := Resident, fifoSeq := nextSeq)];
        nextSeq := nextSeq + 1;
        queue := queue + [v];
      }
      MapDone(s, u, Abs(), v, f, p, writable, info);
      r := 0;
    }

    /** The text and data branches of handle_page_fault, for a segment whose page at v starts at offset `off`
        of the file and takes `n` bytes from it. */
    method LoadFault(v: nat, off: nat, n: nat, writable: bool, env: Env) returns (r: int)
      requires Inv(Abs()) && nextSeq < MAXSEQ && Absent(Abs(), v) && !InHeap(Abs(), v) && n <= PGSIZE
      requires writable == !InText(lay, v) && (InText(lay, v) ==> FilePage(lay.exec, off, n) == TextPage(lay, v))
      requires DataOnly(lay, v) ==> FilePage(lay.exec, off, n) == DataPage(lay, v)
      modifies this
      ensures Inv(Abs()) && SameView(old(Abs()), Abs()) && Pages(old(Abs()), Abs()) && (r == 0 || r == -1)
      ensures r == 0 ==> Entered(old(Abs()), Abs(), v) && View(Abs(), v) == FilePage(lay.exec, off, n)
      ensures r == 0 <==> FrameLeft(old(Abs()), env, Missing(old(mem), v)) && InFile(lay.exec, off, n)
      ensures old(mem).free != [] ==> swap == old(swap)
    {
      hide Inv, SameView, Pages, RoomMade, Entered, Arrived, TextPage, View, Missing, CanEvict;
      ghost var s := Abs();
      var f := FrameForFault(env);
      ghost var u := Abs();
      RoomKeepsAbsent(s, u, v);
      if f == -1 {
        return -1;
      }
      if n > 0 && off + n > |lay.exec| {
        Kfree(f);
        SameViewTrans(s, u, Abs());
        PagesTrans(s, u, Abs());
        return -1;
      }
      UnmappedView(u, v);
      var info := if v < |pages| then pages[v] else Info(Unmapped, false, 0, 0, true);
      r := MapFault(v, f, FilePage(lay.exec, off, n), writable, info.(dirty := false, fromExec := true));
      FaultJoins(s, u, Abs(), v, r);
    }

    /** The heap branch: a zero page. */
    method HeapFault(v: nat, env: Env) returns (r: int)
      requires Inv(Abs()) && nextSeq < MAXSEQ && Absent(Abs(), v) && InHeap(Abs(), v) && !InText(lay, v)
      modifies this
      ensures Inv(Abs()) && SameView(old(Abs()), Abs()) && Pages(old(Abs()), Abs()) && (r == 0 || r == -1)
      ensures r == 0 <==> FrameLeft(old(Abs()), env, Missing(old(mem), v))
      ensures old(mem).free != [] ==> swap == old(swap)
      ensures r == 0 ==> Entered(old(Abs()), Abs(), v)
    {
      hide Inv, SameView, Pages, RoomMade, Entered, Arrived, TextPage, View, Missing, CanEvict;
      ghost var s := Abs();
      var f := FrameForFault(env);
      ghost var u := Abs();
      RoomKeepsAbsent(s, u, v);
      if f == -1 {
        return -1;
      }
      UnmappedView(u, v);
      var info := if v < |pages| then pages[v] else Info(Unmapped, true, 0, -1, false);
      assert !DataOnly(lay, v) by { HeapOrData(u, v); }
      r := MapFault(v, f, Fill(0), true, info.(dirty := true, slot := -1, fromExec := false));
      FaultJoins(s, u, Abs(), v, r);
    }

    /** The text, data, heap and invalid branches of handle_page_fault, in that order. */
    method SegmentFault(v: nat, env: Env) returns (r: int)
      requires Inv(Abs()) && nextSeq < MAXSEQ && (v < |pages| ==> pages[v].state != Swapped)
      requires v in mem.pt ==> !InSegment(Abs(), v)
      modifies this
      ensures Inv(Abs()) && SameView(old(Abs()), Abs()) && Pages(old(Abs()), Abs()) && (r == 0 || r == -1)
      ensures r == 0 <==> Served(old(Abs()), v, env)
      ensures old(mem).free != [] ==> swap == old(swap)
      ensures r == 0 ==> Entered(old(Abs()), Abs(), v)
      ensures r == 0 && InData(lay, v) && !InText(lay, v) ==> View(Abs(), v) == DataPage(lay, v)
      ensures !InSegment(old(Abs()), v) ==> r == -1 && killed && Abs() == old(Abs())
    {
      hide Inv, SameView, Pages, Entered, View, FrameLeft, Missing, FilePage, ReadSize, InFile, Served, DataPage;
      hide TextPage;
      SegmentsBelowHeap(Abs(), v);
      SameViewSelf(Abs());
      PagesSelf(Abs());
      ServedIs(Abs(), v, env);
      SegmentPages(lay, v);
      if lay.textStart <= v * PGSIZE < lay.textEnd {
        var o := v * PGSIZE - lay.textStart;
        r := LoadFault(v, lay.textOff + o, ReadSize(o, lay.textFilesz), false, env);
        return;
      }
      if lay.dataStart <= v * PGSIZE < lay.dataEnd {
        var o := v * PGSIZE - lay.dataStart;
        r := LoadFault(v, lay.dataOff + o, ReadSize(o, lay.dataFilesz), true, env);
        return;
      }
      if lay.heapStart <= v * PGSIZE < sz {
        r := HeapFault(v, env);
        return;
      }
      killed := true;
      return -1;
    }

    /** handle_page_fault for page v: on every path, success or failure, no text or heap page reads
        differently; on success the page is mapped and last in the queue, except that a store to text only
        marks the process killed. */
    method HandlePageFault(v: nat, cause: int, env: Env) returns (r: int)
      requires Inv(Abs()) && nextSeq < MAXSEQ
      requires v in mem.pt ==> (InText(lay, v) && cause == 15) || !InSegment(Abs(), v)
      modifies this
      ensures Inv(Abs()) && SameView(old(Abs()), Abs()) && Pages(old(Abs()), Abs()) && (r == 0 || r == -1)
      ensures InText(lay, v) && cause == 15 && v < MAXVPN ==> r == 0 && killed && Abs() == old(Abs())
      ensures !(InText(lay, v) && cause == 15) ==> (r == 0 <==> Served(old(Abs()), v, env))
      ensures old(mem).free != [] && (v < |old(pages)| ==> old(pages)[v].state != Swapped) ==> swap == old(swap)
      ensures r == 0 && !(InText(lay, v) && cause == 15) ==> Entered(old(Abs()), Abs(), v)
      ensures r == 0 && DataFault(old(Abs()), v) ==> View(Abs(), v) == DataPage(lay, v)
      ensures !InSegment(old(Abs()), v) ==> r == -1 && Abs() == old(Abs())
      ensures |old(mem).free| > 2 && (InHeap(old(Abs()), v) || InProgram(lay, v)) ==> r == 0
    {
      SegmentsBelowHeap(Abs(), v);
      ServedIf(Abs(), v, env);
      hide Inv, SameView, Pages, Entered, View, TextPage, DataPage, FrameLeft, Missing;
      SameViewSelf(Abs());
      PagesSelf(Abs());
      if v >= MAXVPN {
        return -1;
      }
      if InText(lay, v) && cause == 15 {
        killed := true;
        return 0;
      }
      if v < |pages| && pages[v].state == Swapped {
        r := SwapinPage(v, env);
        return;
      }
      r := SegmentFault(v, env);
    }

    /** A user load of byte o of page v, faulting if the page is not mapped.  What is read is what a flat
        memory, or the program file, holds. */
    method Load(v: nat, o: nat, env: Env) returns (ok: bool, b: Byte)
      requires Inv(Abs()) && nextSeq < MAXSEQ && o < PGSIZE
      modifies this
      ensures Inv(Abs()) && flat == old(flat) && sz == old(sz) && Pages(old(Abs()), Abs())
      ensures ok && InHeap(Abs(), v) ==> b == Flat(Abs(), v)[o]
      ensures ok && InText(lay, v) ==>
                && b == TextPage(lay, v)[o]
                && var x := v * PGSIZE - lay.textStart;
                (HasPage(lay.exec, lay.textOff, lay.textFilesz, x) ==>
                  b == if x + o < lay.textFilesz then lay.exec[lay.textOff + (x + o)] else 0)
      ensures ok && DataOnly(lay, v) ==> b == DataSeen(old(Abs()), v)[o]
      ensures ok && DataOnly(lay, v) && v !in old(mem).pt ==>
                && var x := v * PGSIZE - lay.dataStart;
                && HasPage(lay.exec, lay.dataOff, lay.dataFilesz, x)
                && b == if x + o < lay.dataFilesz then lay.exec[lay.dataOff + (x + o)] else 0
      ensures ok <==> v in old(mem).pt || Served(old(Abs()), v, env)
      ensures |old(mem).free| > 2 && (InHeap(old(Abs()), v) || InProgram(lay, v)) ==> ok
    {
      hide Inv, SameView, Pages, Served, Entered, TextPage, DataPage;
      ghost var s := Abs();
      SegmentsBelowHeap(s, v);
      ServedHas(s, v, env);
      ServedIf(s, v, env);
      PagesSelf(s);
      if v !in mem.pt {
        var r := HandlePageFault(v, 13, env);
        SameViewFacts(s, Abs());
        EnteredMapped(s, Abs(), v);
        if r != 0 {
          return false, 0;
        }
      }
      ok, b := true, FrameAt(mem, v)[o];
      LoadedByte(Abs(), v, o);
    }

    /** A user store of b at byte o of page v.  A store to text kills the process. */
    method Store(v: nat, o: nat, b: Byte, env: Env) returns (ok: bool)
      requires Inv(Abs()) && nextSeq < MAXSEQ && o < PGSIZE
      modifies this
      ensures Inv(Abs()) && sz == old(sz)
      ensures if ok then StoresAt(old(Abs()), v, o, b, Abs()) else Pages(old(Abs()), Abs())
      ensures ok && InHeap(Abs(), v) ==> flat == old(flat)[v := Flat(old(Abs()), v)[o := b]]
      ensures !(ok && InHeap(Abs(), v)) ==> flat == old(flat)
      ensures ok && DataOnly(lay, v) ==> DataSeen(Abs(), v) == DataSeen(old(Abs()), v)[o := b]
      ensures ok <==>
                !InText(lay, v) && (if v in old(mem).pt then old(mem).pt[v].writable else Served(old(Abs()), v, env))
      ensures InText(lay, v) ==> killed
      ensures |old(mem).free| > 2 && (InHeap(old(Abs()), v) || (DataOnly(lay, v) && InProgram(lay, v))) ==> ok
    {
      hide Inv, SameView, Pages, Served, DataPage;
      StoredIf(Abs(), v, env);
      ok := MakeWritable(v, env);
      SameViewFacts(old(Abs()), Abs());
      if !ok {
        return;
      }
      ghost var u := Abs();
      PutByte(v, o, b);
      StoredAt(old(Abs()), u, v, o, b);
      StoreByteIs(u, v, o, b);
      HeapOrData(u, v);
    }

    /** The fault of a store, if the page is not there or not writable. */
    method MakeWritable(v: nat, env: Env) returns (ok: bool)
      requires Inv(Abs()) && nextSeq < MAXSEQ
      modifies this
      ensures Inv(Abs()) && SameView(old(Abs()), Abs()) && Pages(old(Abs()), Abs())
      ensures ok <==>
                !InText(lay, v) && (if v in old(mem).pt then old(mem).pt[v].writable else Served(old(Abs()), v, env))
      ensures ok ==> v in mem.pt && mem.pt[v].writable
      ensures ok && DataOnly(lay, v) ==> FrameAt(mem, v) == DataSeen(old(Abs()), v)
      ensures InText(lay, v) ==> killed
    {
      AccessFacts(Abs(), v);
      hide Inv, Served, SameView, Pages, View, DataFault, DataPage;
      SameViewSelf(Abs());
      PagesSelf(Abs());
      if v in mem.pt && mem.pt[v].writable {
        return true;
      }
      var r := HandlePageFault(v, 15, env);
      SameViewFacts(old(Abs()), Abs());
      AccessFacts(Abs(), v);
      ok := r == 0 && !InText(lay, v);
    }

    /** The store instruction on a page it may write to. */
    method PutByte(v: nat, o: nat, b: Byte)
      requires Inv(Abs()) && v in mem.pt && mem.pt[v].writable && o < PGSIZE
      modifies this`mem, this`flat
      ensures Inv(Abs()) && Abs() == StoreByte(old(Abs()), v, o, b)
    {
      StoreInv(Abs(), v, o, b);
      hide Inv;
      var p: Page := FrameAt(mem, v)[o := b];
      if lay.heapStart <= v * PGSIZE < sz {
        flat := flat[v := Flat(Abs(), v)[o := b]];
      }
      mem := mem.(frames := mem.frames[mem.pt[v].frame := p]);
    }

    /** sys_sbrk for n >= 0: the heap grows by zero pages, and not into the trap frame. */
    method SbrkGrow(n: nat) returns (r: int)
      requires Inv(Abs())
      modifies this`sz
      ensures Inv(Abs())
      ensures r == (if old(sz) + n > TRAPFRAME * PGSIZE then -1 else old(sz))
      ensures sz == (if r == -1 then old(sz) else old(sz) + n)
      ensures r != -1 ==> Enabled(old(Abs()), Grew(n)) && Abs() == After(old(Abs()), Grew(n))
    {
      if sz + n > TRAPFRAME * PGSIZE {
        return -1;
      }
      GrowInv(Abs(), n);
      r := sz;
      sz := sz + n;
    }
  }

  /** Outside the segments only stack pages below the heap, or kernel pages above it, are mapped. */
  ghost predicate OnlyStack(l: Layout, m: Memory)
  {
    forall v :: v in m.pt ==> !InText(l, v) && !InData(l, v) && (v * PGSIZE < l.heapStart || v >= TRAPFRAME)
  }

  lemma {:induction false} PopCountZero(m: seq<Byte>, n: nat)
    requires n <= 8 * |m| && forall k :: 0 <= k < n ==> !BitAt(m, k)
    ensures PopCount(m, n) == 0
  {
    if n > 0 {
      PopCountZero(m, n - 1);
    }
  }

  lemma {:induction false} NoBitInZero(k: nat)
    ensures !Bit(0, k)
  {
    if k > 0 {
      NoBitInZero(k - 1);
    }
  }

  lemma FreshInv(s: State)
    requires GoodLayout(s.lay) && s.sz == s.lay.heapStart <= TRAPFRAME * PGSIZE && FramesOk(s.mem)
    requires OnlyStack(s.lay, s.mem)
    requires |s.pages| == NPAGES && (forall v :: 0 <= v < NPAGES ==> s.pages[v].state == Unmapped)
    requires s.nextSeq == 1 && s.queue == [] && s.flat == map[]
    requires NoneSwapped(s.swap)
    ensures Inv(s)
  {
    forall k | 0 <= k < NSLOTS ensures !BitAt(s.swap.bitmap, k) {
      NoBitInZero(k % 8);
    }
    PopCountZero(s.swap.bitmap, NSLOTS);
  }

  // ----- when an operation succeeds

  /** How many page-table pages are missing on the way to page v. */
  function Missing(m: Memory, v: nat): (n: nat)
  {
    (if v / 512 / 512 in m.tables1 then 0 else 1) + (if v / 512 in m.tables0 then 0 else 1)
  }

  /** One of the 67 slots that the swap file has room for is free. */
  ghost predicate SlotLeft(w: Swap)
  {
    exists k :: 0 <= k < 67 && k < 8 * |w.bitmap| && !BitAt(w.bitmap, k)
  }

  /** Page v can leave memory: it can be read back from the program, or written to the swap file. */
  ghost predicate CanLeave(s: State, v: nat, env: Env)
  {
    && v < |s.pages| && s.pages[v].state == Resident
    && ((s.pages[v].fromExec && !s.pages[v].dirty)
        || ((s.swap.hasFile || env.createOk) && env.wrote >= PGSIZE && SlotLeft(s.swap)))
  }

  /** The page that came in first can leave. */
  ghost predicate CanEvict(s: State, env: Env)
  {
    s.queue != [] && CanLeave(s, s.queue[0], env)
  }

  /** There is a frame for a fault, if need be after one eviction, and `more` free ones beside it. */
  ghost predicate FrameLeft(s: State, env: Env, more: nat)
  {
    if s.mem.free != [] then |s.mem.free| > more else CanEvict(s, env) && !env.stolen && more == 0
  }

  /** The n bytes at `off` lie in the program file. */
  predicate InFile(exec: seq<Byte>, off: nat, n: nat)
  {
    n == 0 || off + n <= |exec|
  }

  /** A fault on page v is served: exactly when it belongs to a segment, there are frames for it and for
      the page-table pages it lacks, and the program file holds the bytes it needs. */
  ghost predicate Served(s: State, v: nat, env: Env)
  {
    if v < |s.pages| && s.pages[v].state == Swapped then FrameLeft(s, env, 0)
    else
      && InSegment(s, v) && FrameLeft(s, env, Missing(s.mem, v))
      && (if InText(s.lay, v) then
            var o := v * PGSIZE - s.lay.textStart; InFile(s.lay.exec, s.lay.textOff + o, ReadSize(o, s.lay.textFilesz))
          else if InData(s.lay, v) then
            var o := v * PGSIZE - s.lay.dataStart; InFile(s.lay.exec, s.lay.dataOff + o, ReadSize(o, s.lay.dataFilesz))
          else true)
  }

  /** Page v belongs to the text or the data segment and the program file holds its bytes. */
  ghost predicate InProgram(l: Layout, v: nat)
  {
    || (InText(l, v) && HasPage(l.exec, l.textOff, l.textFilesz, v * PGSIZE - l.textStart))
    || (DataOnly(l, v) && HasPage(l.exec, l.dataOff, l.dataFilesz, v * PGSIZE - l.dataStart))
  }

  /** With three frames free every fault in a segment whose bytes are there is served: one frame is for the page and
      two for page-table pages. */
  lemma ServedIf(s: State, v: nat, env: Env)
    requires Inv(s)
    ensures |s.mem.free| > 2 && (InHeap(s, v) || InProgram(s.lay, v)) ==> Served(s, v, env)
  {
    AccessFacts(s, v);
    SegmentsBelowHeap(s, v);
    hide Inv, Served, HasPage, ReadSize;
    if |s.mem.free| > 2 && (InHeap(s, v) || InProgram(s.lay, v)) {
      if v < |s.pages| && s.pages[v].state == Swapped {
        SwappedServed(s, v, env);
      } else {
        ServedIs(s, v, env);
        if InText(s.lay, v) {
          FilePageByte(s.lay.exec, s.lay.textOff, s.lay.textFilesz, v * PGSIZE - s.lay.textStart, 0);
        } else if InData(s.lay, v) {
          FilePageByte(s.lay.exec, s.lay.dataOff, s.lay.dataFilesz, v * PGSIZE - s.lay.dataStart, 0);
        }
      }
    }
  }

  lemma SwappedServed(s: State, v: nat, env: Env)
    requires v < |s.pages| && s.pages[v].state == Swapped && s.mem.free != []
    ensures Served(s, v, env)
  {
  }

  lemma StoredIf(s: State, v: nat, env: Env)
    requires Inv(s)
    ensures |s.mem.free| > 2 && (InHeap(s, v) || (DataOnly(s.lay, v) && InProgram(s.lay, v))) ==>
              !InText(s.lay, v) && Served(s, v, env) && (v in s.mem.pt ==> s.mem.pt[v].writable)
  {
    AccessFacts(s, v);
    SegmentsBelowHeap(s, v);
    hide Inv, Served, HasPage;
    ServedIf(s, v, env);
  }

  /** What is enough for a page to leave memory. */
  lemma LeavesIf(s: State, v: nat, env: Env)
    ensures v < |s.pages| && s.pages[v].state == Resident && s.pages[v].fromExec && !s.pages[v].dirty ==>
              CanLeave(s, v, env)
    ensures v < |s.pages| && s.pages[v].state == Resident && env.wrote >= PGSIZE ==>
              (s.swap.hasFile || env.createOk) ==>
              (exists k :: 0 <= k < 67 && k < 8 * |s.swap.bitmap| && !BitAt(s.swap.bitmap, k)) ==> CanLeave(s, v, env)
  {
  }

  lemma FirstIsLeft(w: Swap, k: nat)
    requires FirstFree(w.bitmap, k)
    ensures SlotLeft(w) <==> (k + 1) * PGSIZE <= MAXBYTES
  {
  }

  /** What the hardware's write permission says about a mapped page. */
  lemma AccessFacts(s: State, v: nat)
    requires Inv(s)
    ensures v in s.mem.pt && InSegment(s, v) ==> s.mem.pt[v].writable == !InText(s.lay, v)
    ensures v < |s.pages| && s.pages[v].state == Swapped ==> v !in s.mem.pt && InHeap(s, v)
    ensures InText(s.lay, v) ==> v < MAXVPN && !InHeap(s, v)
  {
    SegmentsBelowHeap(s, v);
    assert v < |s.pages| ==> LinkOk(s, v);
  }

  /** When a fault on a page that is not swapped out is served, segment by segment. */
  lemma ServedIs(s: State, v: nat, env: Env)
    requires v < |s.pages| ==> s.pages[v].state != Swapped
    ensures !InSegment(s, v) ==> !Served(s, v, env)
    ensures InText(s.lay, v) ==>
              var o := v * PGSIZE - s.lay.textStart;
              Served(s, v, env) == (FrameLeft(s, env, Missing(s.mem, v)) &&
                                    InFile(s.lay.exec, s.lay.textOff + o, ReadSize(o, s.lay.textFilesz)))
    ensures DataOnly(s.lay, v) ==>
              var o := v * PGSIZE - s.lay.dataStart;
              Served(s, v, env) == (FrameLeft(s, env, Missing(s.mem, v)) &&
                                    InFile(s.lay.exec, s.lay.dataOff + o, ReadSize(o, s.lay.dataFilesz)))
    ensures InHeap(s, v) && !InText(s.lay, v) && !InData(s.lay, v) ==>
              (Served(s, v, env) <==> FrameLeft(s, env, Missing(s.mem, v)))
  {
    hide FrameLeft, Missing, InFile, ReadSize;
  }

  lemma SegmentPages(l: Layout, v: nat)
    ensures InText(l, v) ==>
              var o := v * PGSIZE - l.textStart;
              TextPage(l, v) == FilePage(l.exec, l.textOff + o, ReadSize(o, l.textFilesz))
    ensures InData(l, v) ==>
              var o := v * PGSIZE - l.dataStart;
              DataPage(l, v) == FilePage(l.exec, l.dataOff + o, ReadSize(o, l.dataFilesz))
  {
    hide FilePage, ReadSize;
  }

  lemma StoreByteIs(s: State, v: nat, o: nat, b: Byte)
    requires v in s.mem.pt && o < PGSIZE
    ensures var r := StoreByte(s, v, o, b);
            && r.sz == s.sz && r.lay == s.lay && v in r.mem.pt && FrameAt(r.mem, v) == FrameAt(s.mem, v)[o := b]
            && r.flat == if InHeap(s, v) then s.flat[v := Flat(s, v)[o := b]] else s.flat
  {
  }

  lemma HeapOrData(s: State, v: nat)
    requires Inv(s)
    ensures InData(s.lay, v) ==> !InHeap(s, v)
  {
    SegmentsBelowHeap(s, v);
  }

  /** A fault on a page of the data segment is served only if the program file has its bytes. */
  lemma ServedHas(s: State, v: nat, env: Env)
    requires Inv(s)
    ensures DataOnly(s.lay, v) && Served(s, v, env) ==>
              HasPage(s.lay.exec, s.lay.dataOff, s.lay.dataFilesz, v * PGSIZE - s.lay.dataStart)
  {
    AccessFacts(s, v);
    SegmentsBelowHeap(s, v);
    hide Inv, Served, HasPage, ReadSize, FrameLeft, Missing;
    if DataOnly(s.lay, v) {
      ServedIs(s, v, env);
      FilePageByte(s.lay.exec, s.lay.dataOff, s.lay.dataFilesz, v * PGSIZE - s.lay.dataStart, 0);
    }
  }

  lemma EnteredMapped(s: State, r: State, v: nat)
    ensures Entered(s, r, v) ==> v in r.mem.pt
  {
  }

  /** What a load from a mapped page finds. */
  lemma LoadedByte(s: State, v: nat, o: nat)
    requires Inv(s) && v in s.mem.pt && o < PGSIZE
    ensures InHeap(s, v) ==> FrameAt(s.mem, v)[o] == Flat(s, v)[o]
    ensures InText(s.lay, v) ==>
              && FrameAt(s.mem, v)[o] == TextPage(s.lay, v)[o]
              && var x := v * PGSIZE - s.lay.textStart;
              (HasPage(s.lay.exec, s.lay.textOff, s.lay.textFilesz, x) ==>
                TextPage(s.lay, v)[o] == if x + o < s.lay.textFilesz then s.lay.exec[s.lay.textOff + (x + o)] else 0)
    ensures InData(s.lay, v) ==>
              var x := v * PGSIZE - s.lay.dataStart;
              (HasPage(s.lay.exec, s.lay.dataOff, s.lay.dataFilesz, x) ==>
                DataPage(s.lay, v)[o] == if x + o < s.lay.dataFilesz then s.lay.exec[s.lay.dataOff + (x + o)] else 0)
    ensures View(s, v) == FrameAt(s.mem, v)
  {
    hide Base, TextPage, DataPage, HasPage;
    assert View(s, v) == FrameAt(s.mem, v);
    if InText(s.lay, v) {
      TextByte(s.lay, v, o);
    }
    if InData(s.lay, v) {
      DataByteOf(s.lay, v, o);
    }
  }

  lemma SameViewFacts(s: State, r: State)
    requires SameView(s, r)
    ensures r.sz == s.sz && r.lay == s.lay && r.flat == s.flat
  {
  }

  /** MAXVA in pages. */
  const MAXVPN := 0x40_0000_0000 / PGSIZE

  /** Frames were found for a fault: pages out of memory, page-table pages and sequence numbers stay; at
      most the first page of the queue has left. */
  ghost predicate RoomMade(s: State, r: State)
  {
    && |r.pages| == |s.pages| && r.nextSeq == s.nextSeq
    && r.mem.tables1 == s.mem.tables1 && r.mem.tables0 == s.mem.tables0
    && (forall x :: x in r.mem.pt ==> x in s.mem.pt)
    && (forall x :: 0 <= x < |s.pages| && s.pages[x].state != Resident ==> r.pages[x] == s.pages[x])
    && (r.queue == s.queue || (s.queue != [] && r.queue == s.queue[1..]))
  }

  /** Page v is mapped and, if tracked, resident and appended to the queue. */
  ghost predicate Arrived(s: State, r: State, v: nat)
  {
    && v in r.mem.pt && |r.pages| == |s.pages|
    && (v < |s.pages| ==> r.pages[v].state == Resident)
    && r.queue == if v < |s.pages| then s.queue + [v] else s.queue
  }

  /** Page v is mapped and, if tracked, resident and last in the queue; at most the first page of the
      queue has left. */
  ghost predicate Entered(s: State, r: State, v: nat)
  {
    && v in r.mem.pt && |r.pages| == |s.pages|
    && (v < |s.pages| ==>
          r.pages[v].state == Resident &&
                (r.queue == s.queue + [v] || (s.queue != [] && r.queue == s.queue[1..] + [v])))
    && (v >= |s.pages| ==> r.queue == s.queue || (s.queue != [] && r.queue == s.queue[1..]))
  }

  /** Page v of a segment is neither mapped nor swapped out. */
  ghost predicate Absent(s: State, v: nat)
  {
    v !in s.mem.pt && v * PGSIZE < s.sz && (v < |s.pages| ==> s.pages[v].state != Swapped)
  }

  /** A fault on page v is served from the data segment. */
  ghost predicate DataFault(s: State, v: nat)
  {
    DataOnly(s.lay, v) && (v < |s.pages| ==> s.pages[v].state != Swapped)
  }

  lemma RoomAfterPop(s: State, r: State)
    requires r == s || (s.mem.free != [] && r == s.(mem := PopFree(s.mem)))
    ensures RoomMade(s, r)
  {
  }

  lemma RoomAfterFailure(s: State, r: State)
    requires r.mem == s.mem && r.pages == s.pages && r.nextSeq == s.nextSeq && r.queue == s.queue
    ensures RoomMade(s, r)
  {
  }

  lemma RoomAfterLeft(s: State, r: State, v: nat)
    requires Inv(s) && s.queue != [] && s.queue[0] == v && Left(s, r, v)
    ensures RoomMade(s, r)
  {
    assert v in s.queue;
  }

  lemma RoomTrans(s: State, u: State, r: State)
    requires RoomMade(s, u) && RoomMade(u, r) && r.queue == u.queue && r.pages == u.pages && SameView(s, u)
    requires SameView(u, r) && Pages(s, u) && Pages(u, r)
    ensures RoomMade(s, r) && SameView(s, r) && Pages(s, r)
  {
    hide Pages;
    PagesTrans(s, u, r);
    SameViewTrans(s, u, r);
  }

  lemma RoomKeepsOut(s: State, u: State, v: nat)
    requires RoomMade(s, u) && v < |s.pages| && s.pages[v].state == Swapped
    ensures v < |u.pages| && u.pages[v] == s.pages[v] && u.nextSeq == s.nextSeq
  {
  }

  lemma RoomKeepsAbsent(s: State, u: State, v: nat)
    requires Inv(s) && RoomMade(s, u) && SameView(s, u) && Absent(s, v)
    ensures Absent(u, v) && u.nextSeq == s.nextSeq && u.sz == s.sz && u.lay == s.lay
    ensures Missing(u.mem, v) == Missing(s.mem, v)
  {
    assert v < |s.pages| ==> LinkOk(s, v);
  }

  /** readi of a held slot finds a whole page, and the slot's bit is set. */
  lemma ReadSlot(s: State, v: nat)
    requires Inv(s) && v < |s.pages| && s.pages[v].state == Swapped
    ensures var k := s.pages[v].slot;
            0 <= k < NSLOTS == |s.swap.bitmap| * 8 && (k + 1) * PGSIZE <= |s.swap.file| && BitAt(s.swap.bitmap, k)
  {
    assert SlotHeld(s.swap, s.pages, s.pages[v].slot);
  }

  lemma SwapinDone(s: State, u: State, r: State, v: nat, f: nat)
    requires SameView(s, u) && RoomMade(s, u) && v < |u.pages| && 0 <= u.pages[v].slot < 8 * |u.swap.bitmap|
    requires SameView(u, r) && r == SwapIn(u, v, f) && Pages(s, u) && Pages(u, r)
    ensures SameView(s, r) && Entered(s, r, v) && Pages(s, r)
  {
    hide SameView, Pages;
    PagesTrans(s, u, r);
    SameViewTrans(s, u, r);
  }

  lemma BeforeMap(s: State, u: State, v: nat, f: nat, p: Page, writable: bool, info: Info)
    requires Inv(u) && SameView(s, u) && u == s.(mem := u.mem) && u.mem.pt == s.mem.pt && HasTables(u.mem, v)
    requires LooseFrame(u.mem, f)
    requires Absent(s, v) && u.nextSeq < MAXSEQ
    requires writable == !InText(s.lay, v)
    requires if InHeap(s, v) then !info.fromExec else info.fromExec && !info.dirty
    requires InHeap(s, v) || InText(s.lay, v) ==> p == View(s, v)
    requires DataOnly(s.lay, v) ==> p == DataPage(s.lay, v)
    ensures var r := Enter(u, v, f, p, writable, info); Inv(r) && SameView(u, r) && View(r, v) == p && Pages(u, r)
  {
    hide Inv, SameView, Pages, Absent, View;
    AbsentIs(s, u, v);
    EnterView(u, v, f, p, writable, info, v);
    EnterInv(u, v, f, p, writable, info);
    BroughtIn(s, u, v, f, p, writable, info);
  }

  lemma AbsentIs(s: State, u: State, v: nat)
    requires Inv(u) && SameView(s, u) && u == s.(mem := u.mem) && u.mem.pt == s.mem.pt && Absent(s, v)
    ensures FramesOk(u.mem) && v !in u.mem.pt && v * PGSIZE < u.sz && (v < |u.pages| ==> u.pages[v].state == Unmapped)
    ensures InHeap(s, v) || InText(s.lay, v) ==> View(u, v) == View(s, v)
  {
    assert v < |u.pages| ==> LinkOk(u, v);
  }

  /** The page a fault maps is the one its segment says. */
  lemma BroughtIn(s: State, u: State, v: nat, f: nat, p: Page, writable: bool, info: Info)
    requires Inv(u) && u == s.(mem := u.mem) && u.mem.pt == s.mem.pt && HasTables(u.mem, v)
    requires LooseFrame(u.mem, f)
    requires Absent(s, v) && u.nextSeq < MAXSEQ
    requires writable == !InText(s.lay, v)
    requires if InHeap(s, v) then !info.fromExec else info.fromExec && !info.dirty
    requires InHeap(s, v) || InText(s.lay, v) ==> p == View(s, v)
    requires DataOnly(s.lay, v) ==> p == DataPage(s.lay, v)
    ensures Pages(u, Enter(u, v, f, p, writable, info))
  {
    assert v < |u.pages| ==> LinkOk(u, v);
    hide Inv, Pages;
    UnmappedView(s, v);
    PagesFault(u, v, f, p, writable, info);
  }

  lemma MapDone(s: State, u: State, r: State, v: nat, f: nat, p: Page, writable: bool, info: Info)
    requires SameView(s, u) && u == s.(mem := u.mem) && r == Enter(u, v, f, p, writable, info) && SameView(u, r)
    requires Pages(s, u) && Pages(u, r)
    ensures SameView(s, r) && Arrived(s, r, v) && Pages(s, r)
  {
    hide Pages;
    PagesTrans(s, u, r);
    SameViewTrans(s, u, r);
  }

  lemma UnmappedView(s: State, v: nat)
    requires Absent(s, v)
    ensures View(s, v) == if InText(s.lay, v) then TextPage(s.lay, v) else Fill(0)
  {
  }

  lemma FaultJoins(s: State, u: State, r: State, v: nat, code: int)
    requires SameView(s, u) && SameView(u, r) && RoomMade(s, u) && (code == 0 ==> Arrived(u, r, v))
    requires Pages(s, u) && Pages(u, r)
    ensures SameView(s, r) && (code == 0 ==> Entered(s, r, v)) && Pages(s, r)
  {
    hide Pages;
    PagesTrans(s, u, r);
    SameViewTrans(s, u, r);
  }

  lemma SegmentsBelowHeap(s: State, v: nat)
    requires Inv(s)
    ensures InText(s.lay, v) || InData(s.lay, v) ==> !InHeap(s, v) && v * PGSIZE < s.sz
    ensures InHeap(s, v) ==> v * PGSIZE < MAXVPN * PGSIZE
    ensures v < |s.pages| && s.pages[v].state == Swapped ==> InHeap(s, v)
  {
    assert v < |s.pages| ==> LinkOk(s, v);
  }

  /** Where a resident page stands in the queue. */
  ghost function Position(s: State, v: nat): (a: nat)
    requires Inv(s) && v < |s.pages| && s.pages[v].state == Resident
    ensures a < |s.queue| && s.queue[a] == v && (s.queue[0] == v ==> a == 0)
  {
    assert v in s.queue;
    var a :| 0 <= a < |s.queue| && s.queue[a] == v;
    a
  }

  /** Page v has left memory: it is no longer mapped nor resident, its frame heads the free list, and
      no other page moved. */
  ghost predicate Left(s: State, r: State, v: nat)
  {
    && v in s.mem.pt && r.mem == FreeFrame(s.mem, v) && r.nextSeq == s.nextSeq
    && v < |s.pages| && |r.pages| == |s.pages| && r.pages[v].state != Resident
    && (forall x :: 0 <= x < |s.pages| && x != v ==> r.pages[x] == s.pages[x])
    && s.queue != [] && (s.queue[0] == v ==> r.queue == s.queue[1..])
  }

  lemma DiscardLeft(s: State, v: nat, a: nat)
    requires v in s.mem.pt && v < |s.pages| && a < |s.queue| && s.queue[a] == v && (s.queue[0] == v ==> a == 0)
    ensures Left(s, Discard(s, v, a), v)
  {
  }

  lemma OpenedSlots(w: Swap, r: Swap)
    requires r.bitmap == w.bitmap
    ensures SlotLeft(r) <==> SlotLeft(w)
  {
  }

  lemma SwapoutJoins(s: State, u: State, r: State, v: nat, a: nat, code: int)
    requires SameView(s, u) && SameView(u, r) && u == s.(swap := u.swap)
    requires (|s.queue| > 0 && s.queue[0] == v ==> a == 0)
    requires code == 0 ==> WrittenOut(u, r, v, a)
    requires code == -1 ==> r.mem == u.mem && r.pages == u.pages && r.nextSeq == u.nextSeq && r.queue == u.queue
    requires Pages(s, u) && Pages(u, r)
    ensures SameView(s, r) && (code == 0 ==> Left(s, r, v)) && Pages(s, r)
  {
    hide Pages;
    PagesTrans(s, u, r);
    SameViewTrans(s, u, r);
  }

  /** `r` is `s` with page v swapped out to the first free slot. */
  ghost predicate WrittenOut(s: State, r: State, v: nat, a: nat)
  {
    exists k: nat :: CanSwapOut(s, v, a, k) && v in s.mem.pt && k * PGSIZE <= |s.swap.file| && r == SwapOut(s, v, a, k)
  }

  /** Slots from 67 on are never held, so the bitmap is never full. */
  lemma SomeSlotFree(s: State)
    requires Inv(s)
    ensures |s.swap.bitmap| * 8 == NSLOTS && !BitAt(s.swap.bitmap, 67)
  {
    assert BitAt(s.swap.bitmap, 67) ==> SlotHeld(s.swap, s.pages, 67);
  }

  lemma BeforeWriteOut(s: State, v: nat, a: nat, k: nat)
    requires Inv(s) && a < |s.queue| && s.queue[a] == v && v < |s.pages| && !(s.pages[v].fromExec && !s.pages[v].dirty)
    requires FirstFree(s.swap.bitmap, k)
    ensures v in s.mem.pt && k * PGSIZE <= |s.swap.file| && k < NSLOTS == 8 * |s.swap.bitmap|
    ensures (k + 1) * PGSIZE <= MAXBYTES ==> CanSwapOut(s, v, a, k)
    ensures |SetBitAt(s.swap.bitmap, k, true)| * 8 == NSLOTS && BitAt(SetBitAt(s.swap.bitmap, k, true), k)
  {
    assert v in s.queue && LinkOk(s, v);
    FirstFitOffset(s.swap, s.pages, k);
  }

  lemma WriteFailed(s: State, k: nat, bytes: seq<Byte>, r: State)
    requires Inv(s) && FirstFree(s.swap.bitmap, k) && s.swap.hasFile && |bytes| <= PGSIZE && k * PGSIZE <= |s.swap.file|
    requires (k + 1) * PGSIZE <= MAXBYTES || bytes == []
    requires r == s.(swap := s.swap.(bitmap := SetBitAt(SetBitAt(s.swap.bitmap, k, true), k, false),
                                     file := Splice(s.swap.file, k * PGSIZE, bytes)))
    ensures Inv(r) && SameView(s, r) && Pages(s, r)
  {
    SetThenClear(s.swap.bitmap, k);
    if (k + 1) * PGSIZE <= MAXBYTES {
      ScribbleInv(s, k, bytes);
      assert r == Scribble(s, k, bytes);
      PagesFailed(s, k, bytes);
    } else {
      assert Splice(s.swap.file, k * PGSIZE, []) == s.swap.file;
      assert r == s;
      SameViewSelf(s);
      PagesSelf(s);
    }
  }

  lemma WriteSucceeded(s: State, v: nat, a: nat, k: nat, r: State)
    requires Inv(s) && CanSwapOut(s, v, a, k) && v in s.mem.pt && k * PGSIZE <= |s.swap.file| && s.swap.hasFile
    requires r == s.(swap := s.swap.(bitmap := SetBitAt(s.swap.bitmap, k, true), used := s.swap.used + 1,
                                     file := Splice(s.swap.file, k * PGSIZE, FrameAt(s.mem, v)[..PGSIZE]),
                                           slotOf := s.swap.slotOf[k := v]),
                     pages := s.pages[v := s.pages[v].(state := Swapped, slot := k, fromExec := false)],
                     mem := FreeFrame(s.mem, v), queue := Without(s.queue, a))
    ensures Inv(r) && SameView(s, r) && WrittenOut(s, r, v, a) && Pages(s, r)
  {
    hide Inv, SameView, Pages, CanSwapOut, Splice, SetBitAt;
    SwapOutInv(s, v, a, k);
    PagesOut(s, v, a, k);
    SwapOutPlace(s, v, a, k);
    assert FrameAt(s.mem, v)[..PGSIZE] == FrameAt(s.mem, v);
    assert r == SwapOut(s, v, a, k);
  }

  lemma SameViewSelf(s: State)
    ensures SameView(s, s)
  {
  }

  lemma TableStep(s0: State, s: State, v: nat)
    requires Inv(s) && SameView(s0, s) && s.mem.free != [] && Pages(s0, s)
    ensures Inv(s.(mem := AddTable(s.mem, v))) && SameView(s0, s.(mem := AddTable(s.mem, v)))
    ensures Pages(s0, s.(mem := AddTable(s.mem, v)))
    ensures forall f :: LooseFrame(s.mem, f) ==> LooseFrame(AddTable(s.mem, v), f)
  {
    AddTableOk(s.mem, v);
    hide Transparent;
    SameMappingInv(s, AddTable(s.mem, v));
    hide Pages, Inv;
    PagesMoved(s, AddTable(s.mem, v));
    PagesTrans(s0, s, s.(mem := AddTable(s.mem, v)));
    SameViewTrans(s0, s, s.(mem := AddTable(s.mem, v)));
  }
}
