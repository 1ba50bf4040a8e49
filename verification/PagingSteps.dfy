/** The transitions of kernel/vm.c's pager and why each keeps every page's contents. */
module PagingSteps {
  import opened Blocks
  import opened Naturals
  import opened Bits
  import opened FsContent
  import opened PagingState

  /** No page reads differently. */
  ghost predicate SameView(s: State, r: State)
  {
    && r.lay == s.lay && r.sz == s.sz && r.flat == s.flat
    && forall v: nat {:trigger View(r, v)} :: InHeap(s, v) || InText(s.lay, v) ==> View(r, v) == View(s, v)
  }

  lemma SameViewTransparent(s: State, r: State)
    requires Transparent(s) && SameView(s, r)
    ensures Transparent(r)
  {
    forall v: nat {:trigger View(r, v)} | InHeap(r, v) ensures View(r, v) == Flat(r, v) {
      assert View(r, v) == View(s, v);
    }
    forall v: nat {:trigger View(r, v)} | InText(r.lay, v) ensures View(r, v) == TextPage(r.lay, v) {
      assert View(r, v) == View(s, v);
    }
  }

  /** The page at place a of the queue. */
  lemma QueuedIs(s: State, a: nat)
    requires Base(s) && a < |s.queue|
    ensures var v := s.queue[a]; v < NPAGES == |s.pages| && s.pages[v].state == Resident && LinkOk(s, v)
  {
    hide FramesOk, SlotsOk, LinkOk;
    assert s.queue[a] in s.queue;
  }

  lemma BaseParts(s: State)
    requires Base(s)
    ensures FramesOk(s.mem) && SlotsOk(s.swap, s.pages) && QueueOk(s.pages, s.nextSeq, s.queue) && LinksOk(s)
    ensures |s.pages| == NPAGES
  {
    hide FramesOk, SlotsOk, LinksOk;
  }

  /** The slot of a page that is swapped out. */
  lemma SwappedSlot(w: Swap, pages: seq<Info>, v: nat)
    requires SlotsOk(w, pages) && v < |pages| && pages[v].state == Swapped
    ensures |pages| == NPAGES && pages[v].slot >= 0 && pages[v].slot in w.slotOf && w.slotOf[pages[v].slot] == v
    ensures SlotHeld(w, pages, pages[v].slot)
  {
    hide PopCount, BitAt;
  }

  // ----- a page becomes resident

  /** mappages of frame f, holding p, at page v. */
  function MapFrame(m: Memory, v: nat, f: nat, p: Page, writable: bool): (r: Memory)
  {
    m.(pt := m.pt[v := Pte(f, writable)], frames := m.frames[f := p], frameOf := m.frameOf[f := v])
  }

  /** The page mapped and, if it is tracked, its page_info made RESIDENT with the next sequence number. */
  function Enter(s: State, v: nat, f: nat, p: Page, writable: bool, info: Info): (r: State)
  {
    var m := MapFrame(s.mem, v, f, p, writable);
    if v < |s.pages| then
      s.(mem := m, pages := s.pages[v := info.(state := Resident, fifoSeq := s.nextSeq)],
         nextSeq := s.nextSeq + 1, queue := s.queue + [v])
    else
      s.(mem := m)
  }

  /** Page v may enter: it is an unmapped page of a segment, f is a frame in no use. */
  ghost predicate CanEnter(s: State, v: nat, f: nat, writable: bool, info: Info)
  {
    && v !in s.mem.pt && v * PGSIZE < s.sz && (v < |s.pages| ==> s.pages[v].state == Unmapped)
    && f !in s.mem.frameOf && f !in s.mem.free && HasTables(s.mem, v) && s.nextSeq < MAXSEQ
    && writable == !InText(s.lay, v) && (if InHeap(s, v) then !info.fromExec else info.fromExec && !info.dirty)
  }

  lemma MapFrameOk(m: Memory, v: nat, f: nat, p: Page, writable: bool)
    requires FramesOk(m) && v !in m.pt && f !in m.frameOf && f !in m.free
    ensures FramesOk(MapFrame(m, v, f, p, writable))
  {
  }

  /** Only the record of a page that held no slot changed. */
  lemma SlotsKept(w: Swap, pages: seq<Info>, v: nat, info: Info)
    requires SlotsOk(w, pages) && v < NPAGES && pages[v].state != Swapped && info.state != Swapped
    ensures SlotsOk(w, pages[v := info])
  {
    var q := pages[v := info];
    forall k | k in w.slotOf ensures SlotHeld(w, q, k) {
      assert SlotHeld(w, pages, k);
    }
  }

  lemma QueueGrows(pages: seq<Info>, nextSeq: int, queue: seq<nat>, v: nat, info: Info)
    requires QueueOk(pages, nextSeq, queue) && v < NPAGES && pages[v].state != Resident && nextSeq < MAXSEQ
    requires info.state == Resident && info.fifoSeq == nextSeq
    ensures QueueOk(pages[v := info], nextSeq + 1, queue + [v])
  {
  }

  lemma EnterLinks(s: State, v: nat, f: nat, p: Page, writable: bool, info: Info)
    requires LinksOk(s) && CanEnter(s, v, f, writable, info)
    ensures LinksOk(Enter(s, v, f, p, writable, info))
  {
    var r := Enter(s, v, f, p, writable, info);
    forall x | 0 <= x < NPAGES ensures LinkOk(r, x) {
      assert LinkOk(s, x);
    }
    forall x: nat | s.sz <= x * PGSIZE < TRAPFRAME * PGSIZE ensures Untouched(r, x) {
      assert Untouched(s, x);
    }
  }

  /** A page that enters with other contents than it had is the only one that changes. */
  lemma EnterView(s: State, v: nat, f: nat, p: Page, writable: bool, info: Info, x: nat)
    requires FramesOk(s.mem) && f !in s.mem.frameOf
    ensures View(Enter(s, v, f, p, writable, info), x) == if x == v then p else View(s, x)
  {
  }

  lemma EnterBase(s: State, v: nat, f: nat, p: Page, writable: bool, info: Info)
    requires Base(s) && CanEnter(s, v, f, writable, info)
    ensures Base(Enter(s, v, f, p, writable, info))
  {
    assert |s.pages| == NPAGES;
    hide FramesOk, SlotsOk, QueueOk, LinksOk;
    MapFrameOk(s.mem, v, f, p, writable);
    if v < |s.pages| {
      var i := info.(state := Resident, fifoSeq := s.nextSeq);
      SlotsKept(s.swap, s.pages, v, i);
      QueueGrows(s.pages, s.nextSeq, s.queue, v, i);
    }
    EnterLinks(s, v, f, p, writable, info);
  }

  /** A fault that brings in the contents a text or heap page already has keeps the whole invariant. */
  lemma EnterInv(s: State, v: nat, f: nat, p: Page, writable: bool, info: Info)
    requires Inv(s) && CanEnter(s, v, f, writable, info)
    requires InHeap(s, v) || InText(s.lay, v) ==> p == View(s, v)
    ensures Inv(Enter(s, v, f, p, writable, info)) && SameView(s, Enter(s, v, f, p, writable, info))
  {
    hide FramesOk, SlotsOk, QueueOk, LinksOk, Transparent, View;
    var r := Enter(s, v, f, p, writable, info);
    EnterBase(s, v, f, p, writable, info);
    forall x: nat {:trigger View(r, x)} | InHeap(s, x) || InText(s.lay, x) ensures View(r, x) == View(s, x) {
      EnterView(s, v, f, p, writable, info, x);
    }
    SameViewTransparent(s, r);
  }

  // ----- a page leaves memory

  /** The frame of page v freed (kfree fills it with ones) and the page unmapped. */
  function FreeFrame(m: Memory, v: nat): (r: Memory)
    requires v in m.pt
  {
    var f := m.pt[v].frame;
    m.(pt := m.pt - {v}, frames := m.frames[f := Fill(1)], free := [f] + m.free, frameOf := m.frameOf - {f})
  }

  lemma FreeFrameOk(m: Memory, v: nat)
    requires FramesOk(m) && v in m.pt
    ensures FramesOk(FreeFrame(m, v))
    ensures forall x :: x in m.pt && x != v ==> x in FreeFrame(m, v).pt && FrameAt(FreeFrame(m, v), x) == FrameAt(m, x)
  {
  }

  function Without(q: seq<nat>, a: nat): (r: seq<nat>)
    requires a < |q|
    ensures |r| == |q| - 1 && forall i :: 0 <= i < |r| ==> r[i] == q[if i < a then i else i + 1]
  {
    q[..a] + q[a + 1..]
  }

  lemma QueueDrops(pages: seq<Info>, nextSeq: int, queue: seq<nat>, a: nat, info: Info)
    requires QueueOk(pages, nextSeq, queue) && a < |queue| && info.state != Resident
    ensures QueueOk(pages[queue[a] := info], nextSeq, Without(queue, a))
  {
    var r, q, v := Without(queue, a), pages[queue[a] := info], queue[a];
    forall i | 0 <= i < |r| ensures r[i] != v {
      var j := if i < a then i else i + 1;
      assert pages[queue[j]].fifoSeq != pages[queue[a]].fifoSeq;
    }
    forall x | 0 <= x < NPAGES ensures q[x].state == Resident <==> x in r {
      if x != v && x in queue {
        var j :| 0 <= j < |queue| && queue[j] == x;
        assert r[if j < a then j else j - 1] == x;
      }
    }
  }

  /** Page v, at position a of the queue, leaves memory with the record `info`. */
  function Leave(s: State, v: nat, a: nat, info: Info): (r: State)
    requires v in s.mem.pt && v < |s.pages| && a < |s.queue|
  {
    s.(mem := FreeFrame(s.mem, v), pages := s.pages[v := info], queue := Without(s.queue, a))
  }

  lemma LeaveLinks(s: State, v: nat, a: nat, info: Info)
    requires LinksOk(s) && v in s.mem.pt && v < NPAGES && a < |s.queue|
    requires info.state == Unmapped || (info.state == Swapped && HasTables(s.mem, v) && InHeap(s, v) && !info.fromExec)
    ensures LinksOk(Leave(s, v, a, info))
  {
    var r := Leave(s, v, a, info);
    forall x: nat | s.sz <= x * PGSIZE < TRAPFRAME * PGSIZE ensures Untouched(r, x) {
      assert Untouched(s, x);
    }
    assert s.sz <= v * PGSIZE ==> Untouched(s, v);
    forall x | 0 <= x < NPAGES ensures LinkOk(r, x) {
      assert LinkOk(s, x);
    }
  }

  // ----- discarding a clean page

  function Discard(s: State, v: nat, a: nat): (r: State)
    requires v in s.mem.pt && v < |s.pages| && a < |s.queue|
  {
    Leave(s, v, a, s.pages[v].(state := Unmapped))
  }

  /** A clean page from the program file that is discarded can be read back: no page changes. */
  lemma DiscardInv(s: State, v: nat, a: nat)
    requires Inv(s) && a < |s.queue| && s.queue[a] == v && v < |s.pages| && s.pages[v].fromExec && !s.pages[v].dirty
    ensures s.pages[v].state == Resident && v in s.mem.pt
    ensures Inv(Discard(s, v, a)) && SameView(s, Discard(s, v, a))
  {
    hide FramesOk, QueueOk, LinksOk, SlotsOk, View, Transparent;
    QueuedIs(s, a);
    BaseParts(s);
    var info := s.pages[v].(state := Unmapped);
    FreeFrameOk(s.mem, v);
    QueueDrops(s.pages, s.nextSeq, s.queue, a, info);
    LeaveLinks(s, v, a, info);
    SlotsKept(s.swap, s.pages, v, info);
    var r := Discard(s, v, a);
    forall x: nat {:trigger View(r, x)} | InHeap(s, x) || InText(s.lay, x) ensures View(r, x) == View(s, x) {
      DiscardView(s, v, a, x);
    }
    SameViewTransparent(s, r);
  }

  lemma DiscardView(s: State, v: nat, a: nat, x: nat)
    requires Transparent(s) && FramesOk(s.mem) && a < |s.queue| && v < |s.pages| && LinkOk(s, v) && v in s.mem.pt
    requires s.pages[v].state == Resident && s.pages[v].fromExec && (InHeap(s, x) || InText(s.lay, x))
    ensures View(Discard(s, v, a), x) == View(s, x)
  {
    FreeFrameOk(s.mem, v);
    hide FramesOk;
    assert InText(s.lay, v) ==> View(s, v) == TextPage(s.lay, v);
  }

  // ----- swap slots

  lemma {:induction false} PopCountUpdate(m: seq<Byte>, k: nat, on: bool, n: nat)
    requires n <= 8 * |m| && k < 8 * |m| && BitAt(m, k) != on
    ensures PopCount(SetBitAt(m, k, on), n) == PopCount(m, n) + (if k < n then (if on then 1 else -1) else 0)
  {
    if n > 0 {
      PopCountUpdate(m, k, on, n - 1);
    }
  }

  /** Slot k is free and every slot below it is taken: what the first-fit scan finds. */
  ghost predicate FirstFree(bitmap: seq<Byte>, k: nat)
  {
    k < 8 * |bitmap| && !BitAt(bitmap, k) && forall j :: 0 <= j < k ==> BitAt(bitmap, j)
  }

  /** First fit keeps every offset it hands out within the swap file or at its end, so writei never
      refuses it as past the end. */
  lemma FirstFitOffset(w: Swap, pages: seq<Info>, k: nat)
    requires SlotsOk(w, pages) && FirstFree(w.bitmap, k)
    ensures k < NSLOTS && k !in w.slotOf && k * PGSIZE <= |w.file|
  {
    if k > 0 {
      assert BitAt(w.bitmap, k - 1);
      assert SlotHeld(w, pages, k - 1);
    }
  }

  /** The swap file holds 67 pages: MAXFILE * BSIZE == 67 * PGSIZE. */
  lemma HeldSlotsBelow67(w: Swap, pages: seq<Info>, k: nat)
    requires SlotsOk(w, pages) && k in w.slotOf
    ensures k < 67 && MAXBYTES == 67 * PGSIZE
  {
    assert SlotHeld(w, pages, k);
  }

  /** Bytes written at slot k leave every other whole slot alone, and a whole page fills slot k. */
  lemma SpliceSlot(file: seq<Byte>, k: nat, s: seq<Byte>, j: nat)
    requires k * PGSIZE <= |file| && |s| <= PGSIZE && (j + 1) * PGSIZE <= |file|
    ensures j != k ==> SlotPage(Splice(file, k * PGSIZE, s), j) == SlotPage(file, j)
  {
    var r := Splice(file, k * PGSIZE, s);
    if j < k {
      assert r[j * PGSIZE..(j + 1) * PGSIZE] == file[j * PGSIZE..(j + 1) * PGSIZE];
    } else if j > k {
      assert r[j * PGSIZE..(j + 1) * PGSIZE] == file[j * PGSIZE..(j + 1) * PGSIZE];
    }
  }

  lemma SpliceWhole(file: seq<Byte>, k: nat, p: Page)
    requires k * PGSIZE <= |file|
    ensures var r := Splice(file, k * PGSIZE, p); (k + 1) * PGSIZE <= |r| && SlotPage(r, k) == p
  {
    var r := Splice(file, k * PGSIZE, p);
    assert r[k * PGSIZE..(k + 1) * PGSIZE] == p;
  }

  lemma SpliceLen(c: seq<Byte>, off: nat, s: seq<Byte>)
    requires off <= |c|
    ensures |Splice(c, off, s)| == Max(|c|, off + |s|)
  {
  }

  /** Slot k given to page v, whose contents p are now in it. */
  function TakeSlot(w: Swap, v: nat, k: nat, p: Page): (r: Swap)
    requires k < 8 * |w.bitmap| && k * PGSIZE <= |w.file|
  {
    w.(bitmap := SetBitAt(w.bitmap, k, true), used := w.used + 1, hasFile := true,
       file := Splice(w.file, k * PGSIZE, p), slotOf := w.slotOf[k := v])
  }

  lemma TakeSlotOk(w: Swap, pages: seq<Info>, v: nat, k: nat, p: Page, info: Info)
    requires SlotsOk(w, pages) && FirstFree(w.bitmap, k) && v < NPAGES && pages[v].state != Swapped
    requires k * PGSIZE <= |w.file| && (k + 1) * PGSIZE <= MAXBYTES && info.state == Swapped && info.slot == k
    ensures SlotsOk(TakeSlot(w, v, k, p), pages[v := info])
  {
    var r, q := TakeSlot(w, v, k, p), pages[v := info];
    assert k !in w.slotOf;
    PopCountUpdate(w.bitmap, k, true, NSLOTS);
    SpliceLen(w.file, k * PGSIZE, p);
    hide PopCount, Splice;
    forall j | j in r.slotOf ensures SlotHeld(r, q, j) {
      assert j != k ==> SlotHeld(w, pages, j);
    }
  }

  // ----- swapping a page out

  function SwapOut(s: State, v: nat, a: nat, k: nat): (r: State)
    requires v in s.mem.pt && v < |s.pages| && a < |s.queue| && k < 8 * |s.swap.bitmap| && k * PGSIZE <= |s.swap.file|
  {
    var u := s.(swap := TakeSlot(s.swap, v, k, FrameAt(s.mem, v)));
    Leave(u, v, a, s.pages[v].(state := Swapped, slot := k, fromExec := false))
  }

  /** Page v may be swapped out to slot k. */
  ghost predicate CanSwapOut(s: State, v: nat, a: nat, k: nat)
  {
    && a < |s.queue| && s.queue[a] == v && v < |s.pages| && !(s.pages[v].fromExec && !s.pages[v].dirty)
    && FirstFree(s.swap.bitmap, k) && (k + 1) * PGSIZE <= MAXBYTES
  }

  lemma SwapOutFacts(s: State, v: nat, a: nat, k: nat)
    requires Base(s) && CanSwapOut(s, v, a, k)
    ensures s.pages[v].state == Resident && v in s.mem.pt && HasTables(s.mem, v) && InHeap(s, v)
    ensures k !in s.swap.slotOf && k * PGSIZE <= |s.swap.file|
  {
    assert v in s.queue && LinkOk(s, v);
    FirstFitOffset(s.swap, s.pages, k);
  }

  lemma SwapOutBase(s: State, v: nat, a: nat, k: nat)
    requires Base(s) && CanSwapOut(s, v, a, k) && v in s.mem.pt && k * PGSIZE <= |s.swap.file|
    ensures Base(SwapOut(s, v, a, k))
  {
    SwapOutFacts(s, v, a, k);
    assert |s.pages| == NPAGES;
    hide FramesOk, QueueOk, LinksOk, SlotsOk, FirstFree;
    var info := s.pages[v].(state := Swapped, slot := k, fromExec := false);
    FreeFrameOk(s.mem, v);
    QueueDrops(s.pages, s.nextSeq, s.queue, a, info);
    TakeSlotOk(s.swap, s.pages, v, k, FrameAt(s.mem, v), info);
    LeaveLinksSwap(s, v, a, info, TakeSlot(s.swap, v, k, FrameAt(s.mem, v)));
  }

  /** The swap part plays no role in how pages are linked. */
  lemma LeaveLinksSwap(s: State, v: nat, a: nat, info: Info, w: Swap)
    requires LinksOk(s) && v in s.mem.pt && v < NPAGES && a < |s.queue|
    requires info.state == Swapped && HasTables(s.mem, v) && InHeap(s, v) && !info.fromExec
    ensures LinksOk(Leave(s.(swap := w), v, a, info))
  {
    var u := s.(swap := w);
    SwapOnlyLinks(s, u);
    LeaveLinks(u, v, a, info);
  }

  lemma SwapOutView(s: State, v: nat, a: nat, k: nat, x: nat)
    requires Base(s) && CanSwapOut(s, v, a, k) && v in s.mem.pt && k * PGSIZE <= |s.swap.file|
    ensures View(SwapOut(s, v, a, k), x) == View(s, x)
  {
    hide Base, FramesOk, SlotsOk, Splice, SlotPage, CanSwapOut, SetBitAt;
    BaseParts(s);
    SwapOutFacts(s, v, a, k);
    SpliceWhole(s.swap.file, k, FrameAt(s.mem, v));
    FreeFrameOk(s.mem, v);
    SwapOutPlace(s, v, a, k);
    if x != v && x !in s.mem.pt && x < |s.pages| && s.pages[x].state == Swapped {
      SwappedSlot(s.swap, s.pages, x);
      SpliceSlot(s.swap.file, k, FrameAt(s.mem, v), s.pages[x].slot);
    }
  }

  lemma SwapOutPlace(s: State, v: nat, a: nat, k: nat)
    requires CanSwapOut(s, v, a, k)
    ensures v < |s.pages| && a < |s.queue| && k < 8 * |s.swap.bitmap|
  {
    hide BitAt;
  }

  /** Swapping a page out changes no page's contents. */
  lemma SwapOutInv(s: State, v: nat, a: nat, k: nat)
    requires Inv(s) && CanSwapOut(s, v, a, k)
    ensures v in s.mem.pt && k * PGSIZE <= |s.swap.file|
    ensures Inv(SwapOut(s, v, a, k)) && SameView(s, SwapOut(s, v, a, k))
  {
    SwapOutFacts(s, v, a, k);
    SwapOutBase(s, v, a, k);
    hide Base, CanSwapOut, View, Transparent;
    var r := SwapOut(s, v, a, k);
    forall x: nat {:trigger View(r, x)} | InHeap(s, x) || InText(s.lay, x) ensures View(r, x) == View(s, x) {
      SwapOutView(s, v, a, k, x);
    }
    SameViewTransparent(s, r);
  }

  // ----- a swap-out that fails

  /** The swap file after writei stopped short at free slot k. */
  function Scribble(s: State, k: nat, bytes: seq<Byte>): (r: State)
    requires k * PGSIZE <= |s.swap.file|
  {
    var w := s.swap.(hasFile := true, file := Splice(s.swap.file, k * PGSIZE, bytes));
    s.(swap := w)
  }

  lemma ScribbleSlots(w: Swap, pages: seq<Info>, k: nat, bytes: seq<Byte>)
    requires SlotsOk(w, pages) && FirstFree(w.bitmap, k) && |bytes| <= PGSIZE && (k + 1) * PGSIZE <= MAXBYTES
    requires k * PGSIZE <= |w.file|
    ensures SlotsOk(w.(hasFile := true, file := Splice(w.file, k * PGSIZE, bytes)), pages)
  {
    var r := w.(hasFile := true, file := Splice(w.file, k * PGSIZE, bytes));
    SpliceLen(w.file, k * PGSIZE, bytes);
    forall j | j in r.slotOf ensures SlotHeld(r, pages, j) {
      assert SlotHeld(w, pages, j);
    }
  }

  /** A failed eviction changes no page's contents. */
  lemma ScribbleInv(s: State, k: nat, bytes: seq<Byte>)
    requires Inv(s) && FirstFree(s.swap.bitmap, k) && |bytes| <= PGSIZE && (k + 1) * PGSIZE <= MAXBYTES
    ensures k * PGSIZE <= |s.swap.file| && Inv(Scribble(s, k, bytes)) && SameView(s, Scribble(s, k, bytes))
  {
    FirstFitOffset(s.swap, s.pages, k);
    ScribbleSlots(s.swap, s.pages, k, bytes);
    var r := Scribble(s, k, bytes);
    SwapOnlyLinks(s, r);
    hide PopCount, Splice;
    forall x: nat {:trigger View(r, x)} | InHeap(s, x) || InText(s.lay, x) ensures View(r, x) == View(s, x) {
      if x !in s.mem.pt && x < |s.pages| && s.pages[x].state == Swapped {
        assert SlotHeld(s.swap, s.pages, s.pages[x].slot);
        SpliceSlot(s.swap.file, k, bytes, s.pages[x].slot);
      }
    }
    SameViewTransparent(s, r);
  }

  lemma SwapOnlyLinks(s: State, r: State)
    requires LinksOk(s) && r == s.(swap := r.swap)
    ensures LinksOk(r)
  {
    forall x | 0 <= x < NPAGES ensures LinkOk(r, x) {
      assert LinkOk(s, x);
    }
    forall x: nat | s.sz <= x * PGSIZE < TRAPFRAME * PGSIZE ensures Untouched(r, x) {
      assert Untouched(s, x);
    }
  }

  // ----- swapping a page in

  /** The slot of page v freed. */
  function FreeSlot(w: Swap, k: nat): (r: Swap)
    requires k < 8 * |w.bitmap|
  {
    w.(bitmap := SetBitAt(w.bitmap, k, false), used := w.used - 1, slotOf := w.slotOf - {k})
  }

  /** swapin_page past its reads: the slot freed, then the page entered with the bytes that were in it. */
  function SwapIn(s: State, v: nat, f: nat): (r: State)
    requires v < |s.pages| && 0 <= s.pages[v].slot < 8 * |s.swap.bitmap|
  {
    var info := s.pages[v].(state := Unmapped, slot := -1, dirty := false);
    var u := s.(swap := FreeSlot(s.swap, s.pages[v].slot), pages := s.pages[v := info]);
    Enter(u, v, f, SlotPage(s.swap.file, s.pages[v].slot), true, info)
  }

  lemma FreeSlotOk(w: Swap, pages: seq<Info>, v: nat, info: Info)
    requires SlotsOk(w, pages) && v < NPAGES && pages[v].state == Swapped && info.state == Unmapped
    ensures 0 <= pages[v].slot < NSLOTS && SlotsOk(FreeSlot(w, pages[v].slot), pages[v := info])
  {
    hide PopCount;
    SwappedSlot(w, pages, v);
    var k := pages[v].slot;
    var r, q := FreeSlot(w, k), pages[v := info];
    PopCountUpdate(w.bitmap, k, false, NSLOTS);
    forall j | j in r.slotOf ensures SlotHeld(r, q, j) {
      assert SlotHeld(w, pages, j);
    }
  }

  lemma UnslotLinks(s: State, v: nat, u: State)
    requires LinksOk(s) && v < NPAGES && s.pages[v].state == Swapped
    requires u == s.(swap := u.swap, pages := s.pages[v := s.pages[v].(state := Unmapped, slot := -1, dirty := false)])
    ensures LinksOk(u)
  {
    forall x | 0 <= x < NPAGES ensures LinkOk(u, x) {
      assert LinkOk(s, x);
    }
    forall x: nat | s.sz <= x * PGSIZE < TRAPFRAME * PGSIZE ensures Untouched(u, x) {
      assert Untouched(s, x);
    }
  }

  lemma UnslotQueue(pages: seq<Info>, nextSeq: int, queue: seq<nat>, v: nat, info: Info)
    requires QueueOk(pages, nextSeq, queue) && v < NPAGES && pages[v].state == Swapped && info.state == Unmapped
    ensures QueueOk(pages[v := info], nextSeq, queue)
  {
  }

  /** Swapping a page in, into a frame in no use, changes no page's contents; the page-table pages it
      needs have been there since it was resident before. */
  lemma SwapInInv(s: State, v: nat, f: nat)
    requires Inv(s) && v < |s.pages| && s.pages[v].state == Swapped && s.nextSeq < MAXSEQ
    requires f !in s.mem.frameOf && f !in s.mem.free
    ensures 0 <= s.pages[v].slot < NSLOTS == 8 * |s.swap.bitmap| && HasTables(s.mem, v) && v !in s.mem.pt
    ensures Inv(SwapIn(s, v, f)) && SameView(s, SwapIn(s, v, f))
  {
    assert LinkOk(s, v);
    var info := s.pages[v].(state := Unmapped, slot := -1, dirty := false);
    FreeSlotOk(s.swap, s.pages, v, info);
    var u := s.(swap := FreeSlot(s.swap, s.pages[v].slot), pages := s.pages[v := info]);
    UnslotLinks(s, v, u);
    assert FramesOk(u.mem);
    hide FramesOk, SlotsOk, QueueOk, LinksOk;
    UnslotQueue(s.pages, s.nextSeq, s.queue, v, info);
    EnterBase(u, v, f, SlotPage(s.swap.file, s.pages[v].slot), true, info);
    SwapInView(s, v, f, u, info);
  }

  lemma SwapInView(s: State, v: nat, f: nat, u: State, info: Info)
    requires Transparent(s) && FramesOk(s.mem) && v < |s.pages| && s.pages[v].state == Swapped && f !in s.mem.frameOf
    requires v !in s.mem.pt
    requires info == s.pages[v].(state := Unmapped, slot := -1, dirty := false)
    requires u == s.(swap := u.swap, pages := s.pages[v := info]) && u.swap.file == s.swap.file
    ensures var r := Enter(u, v, f, SlotPage(s.swap.file, s.pages[v].slot), true, info);
            Transparent(r) && SameView(s, r)
  {
    var r := Enter(u, v, f, SlotPage(s.swap.file, s.pages[v].slot), true, info);
    forall x: nat {:trigger View(r, x)} | InHeap(s, x) || InText(s.lay, x) ensures View(r, x) == View(s, x) {
      EnterView(u, v, f, SlotPage(s.swap.file, s.pages[v].slot), true, info, x);
    }
    SameViewTransparent(s, r);
  }

  // ----- the user's accesses and sbrk

  /** The user stores byte b at offset o of mapped page v. */
  function StoreByte(s: State, v: nat, o: nat, b: Byte): (r: State)
    requires v in s.mem.pt && o < PGSIZE
  {
    var p: Page := FrameAt(s.mem, v)[o := b];
    var m := s.mem.(frames := s.mem.frames[s.mem.pt[v].frame := p]);
    var q: Page := Flat(s, v)[o := b];
    s.(mem := m, flat := if InHeap(s, v) then s.flat[v := q] else s.flat)
  }

  lemma StoreLinks(s: State, v: nat, o: nat, b: Byte)
    requires LinksOk(s) && v in s.mem.pt && o < PGSIZE
    ensures LinksOk(StoreByte(s, v, o, b))
  {
    var r := StoreByte(s, v, o, b);
    forall x | 0 <= x < NPAGES ensures LinkOk(r, x) {
      assert LinkOk(s, x);
    }
    forall x: nat | s.sz <= x * PGSIZE < TRAPFRAME * PGSIZE ensures Untouched(r, x) {
      assert Untouched(s, x);
    }
  }

  lemma StoreView(s: State, v: nat, o: nat, b: Byte, x: nat)
    requires FramesOk(s.mem) && v in s.mem.pt && o < PGSIZE
    ensures View(StoreByte(s, v, o, b), x) == if x == v then View(s, v)[o := b] else View(s, x)
  {
  }

  lemma StoreFrames(m: Memory, v: nat, p: Page)
    requires FramesOk(m) && v in m.pt
    ensures FramesOk(m.(frames := m.frames[m.pt[v].frame := p]))
  {
  }

  /** A store the hardware allows reads back, as in a flat memory. */
  lemma StoreInv(s: State, v: nat, o: nat, b: Byte)
    requires Inv(s) && v in s.mem.pt && s.mem.pt[v].writable && o < PGSIZE
    ensures Inv(StoreByte(s, v, o, b))
  {
    var r := StoreByte(s, v, o, b);
    assert !InText(s.lay, v);
    StoreLinks(s, v, o, b);
    StoreFrames(s.mem, v, FrameAt(s.mem, v)[o := b]);
    hide LinksOk, SlotsOk, QueueOk, FramesOk;
    forall x: nat {:trigger View(r, x)} | InHeap(r, x) ensures View(r, x) == Flat(r, x) {
      StoreView(s, v, o, b, x);
    }
    forall x: nat {:trigger View(r, x)} | InText(r.lay, x) ensures View(r, x) == TextPage(r.lay, x) {
      StoreView(s, v, o, b, x);
    }
  }

  function Grow(s: State, n: nat): (r: State) { s.(sz := s.sz + n) }

  lemma GrowLinks(s: State, n: nat)
    requires LinksOk(s) && s.sz + n <= TRAPFRAME * PGSIZE
    ensures LinksOk(Grow(s, n))
  {
    var r := Grow(s, n);
    forall x | 0 <= x < NPAGES ensures LinkOk(r, x) {
      assert LinkOk(s, x);
      assert s.sz <= x * PGSIZE ==> Untouched(s, x);
    }
    forall x: nat | r.sz <= x * PGSIZE < TRAPFRAME * PGSIZE ensures Untouched(r, x) {
      assert Untouched(s, x);
    }
    forall x | x in s.mem.pt && InSegment(r, x) ensures InSegment(s, x) {
      assert s.sz <= x * PGSIZE ==> Untouched(s, x);
    }
  }

  /** Growing the heap adds zero pages. */
  lemma GrowInv(s: State, n: nat)
    requires Inv(s) && s.sz + n <= TRAPFRAME * PGSIZE
    ensures Inv(Grow(s, n))
  {
    var r := Grow(s, n);
    GrowLinks(s, n);
    forall x: nat {:trigger View(r, x)} | InHeap(r, x) ensures View(r, x) == Flat(r, x) {
      assert View(s, x) == View(r, x);
      assert s.sz <= x * PGSIZE ==> Untouched(s, x);
    }
    forall x: nat {:trigger View(r, x)} | InText(r.lay, x) ensures View(r, x) == TextPage(r.lay, x) {
      assert View(s, x) == View(r, x);
    }
  }

  // ----- the frame allocator and page-table pages

  /** kalloc: the first free frame, filled with fives. */
  function PopFree(m: Memory): (r: Memory)
    requires m.free != []
  {
    m.(free := m.free[1..], frames := m.frames[m.free[0] := Fill(5)])
  }

  /** kfree of a frame in no use, filled with ones. */
  function PushFree(m: Memory, f: nat): (r: Memory)
  {
    m.(free := [f] + m.free, frames := m.frames[f := Fill(1)])
  }

  /** Frame f is in no use: neither mapped nor free. */
  ghost predicate LooseFrame(m: Memory, f: nat)
  {
    f !in m.frameOf && f !in m.free
  }

  /** `r` is `m` with the same mapped pages and contents; only free frames and new page-table pages differ. */
  ghost predicate SameMapping(m: Memory, r: Memory)
  {
    && r.pt == m.pt && r.frameOf == m.frameOf && m.tables1 <= r.tables1 && m.tables0 <= r.tables0
    && forall v :: v in m.pt ==> FrameAt(r, v) == FrameAt(m, v)
  }

  lemma PopFreeOk(m: Memory)
    requires FramesOk(m) && m.free != []
    ensures FramesOk(PopFree(m)) && SameMapping(m, PopFree(m)) && LooseFrame(PopFree(m), m.free[0])
    ensures forall f :: LooseFrame(m, f) ==> LooseFrame(PopFree(m), f) && f != m.free[0]
  {
  }

  lemma PushFreeOk(m: Memory, f: nat)
    requires FramesOk(m) && LooseFrame(m, f)
    ensures FramesOk(PushFree(m, f)) && SameMapping(m, PushFree(m, f))
  {
  }

  lemma SameMappingLinks(s: State, m: Memory)
    requires LinksOk(s) && SameMapping(s.mem, m)
    ensures LinksOk(s.(mem := m))
  {
    var r := s.(mem := m);
    forall x | 0 <= x < NPAGES ensures LinkOk(r, x) {
      assert LinkOk(s, x);
    }
    forall x: nat | s.sz <= x * PGSIZE < TRAPFRAME * PGSIZE ensures Untouched(r, x) {
      assert Untouched(s, x);
    }
  }

  /** Allocating and freeing frames, and adding page-table pages, is invisible. */
  lemma SameMappingInv(s: State, m: Memory)
    requires Inv(s) && FramesOk(m) && SameMapping(s.mem, m)
    ensures Inv(s.(mem := m)) && SameView(s, s.(mem := m))
  {
    SameMappingLinks(s, m);
    var r := s.(mem := m);
    hide FramesOk, SlotsOk, QueueOk, LinksOk;
    forall x: nat {:trigger View(r, x)} | InHeap(s, x) || InText(s.lay, x) ensures View(r, x) == View(s, x) {
    }
    SameViewTransparent(s, r);
  }

  /** walk(…, alloc): the missing page-table pages of page v, a frame for each. */
  function AddTable(m: Memory, v: nat): (r: Memory)
    requires m.free != []
  {
    var p := PopFree(m);
    if v / 512 / 512 !in m.tables1 then p.(tables1 := m.tables1 + {v / 512 / 512})
    else p.(tables0 := m.tables0 + {v / 512})
  }

  lemma AddTableOk(m: Memory, v: nat)
    requires FramesOk(m) && m.free != []
    ensures FramesOk(AddTable(m, v)) && SameMapping(m, AddTable(m, v))
    ensures forall f :: LooseFrame(m, f) ==> LooseFrame(AddTable(m, v), f)
  {
    PopFreeOk(m);
  }

  lemma SameViewTrans(a: State, b: State, c: State)
    requires SameView(a, b) && SameView(b, c)
    ensures SameView(a, c)
  {
    forall v: nat {:trigger View(c, v)} | InHeap(a, v) || InText(a.lay, v) ensures View(c, v) == View(a, v) {
      assert View(c, v) == View(b, v);
    }
  }
}
