/** Demand paging and FIFO swapping of kernel/vm.c for one process after exec, as a value: the tracked
    pages, the leaf map of the page table, physical frames, the free list, the swap bitmap and the swap
    file; beside them what a flat memory would hold. */
module PagingState {
  import opened Blocks
  import opened Bits
  import opened FsContent

  const PGSIZE := 4096
  /** MAX_TRACKED_PAGES and MAX_SWAP_PAGES of kernel/paging.h. */
  const NPAGES := 35000
  const NSLOTS := 1024
  /** The largest int, which the victim search starts from. */
  const MAXSEQ := 0x7FFF_FFFF
  /** One page below the trampoline, in pages: MAXVA is 1 << 38. */
  const TRAPFRAME := 0x3F_FFFF_E000 / PGSIZE

  type Page = p: seq<Byte> | |p| == PGSIZE witness seq(4096, _ => 0)

  function Fill(b: Byte): (p: Page)
    ensures forall i :: 0 <= i < PGSIZE ==> p[i] == b
  {
    seq(PGSIZE, _ => b)
  }

  datatype PageState = Unmapped | Resident | Swapped

  /** struct page_info */
  datatype Info = Info(state: PageState, dirty: bool, fifoSeq: int, slot: int, fromExec: bool)

  datatype Pte = Pte(frame: nat, writable: bool)

  /** The segments, as byte addresses, and the program file. */
  datatype Layout = Layout(textStart: nat, textEnd: nat, textOff: nat, textFilesz: nat,
                           dataStart: nat, dataEnd: nat, dataOff: nat, dataFilesz: nat,
                           heapStart: nat, exec: seq<Byte>)

  /** Physical memory and the leaf map of the page table; `frameOf` gives the page a frame is mapped
      at, `tables1` and `tables0` the page-table pages that exist below the root. */
  datatype Memory = Memory(pt: map<nat, Pte>, tables1: set<nat>, tables0: set<nat>,
                           frames: map<nat, Page>, free: seq<nat>, frameOf: map<nat, nat>)

  /** The swap bitmap, its count and the swap file; `slotOf` gives the page that holds a slot. */
  datatype Swap = Swap(bitmap: seq<Byte>, used: int, hasFile: bool, file: seq<Byte>, slotOf: map<nat, nat>)

  /** `queue` lists the resident tracked pages in the order they came in, `flat` is what a flat memory
      would hold (a page not in it is zero). */
  datatype State = State(lay: Layout, sz: nat, mem: Memory, swap: Swap,
                         pages: seq<Info>, nextSeq: int, queue: seq<nat>, flat: map<nat, Page>)

  // ----- segments

  predicate InText(l: Layout, v: nat) { l.textStart <= v * PGSIZE < l.textEnd }

  predicate InData(l: Layout, v: nat) { l.dataStart <= v * PGSIZE < l.dataEnd }

  predicate InHeap(s: State, v: nat) { s.lay.heapStart <= v * PGSIZE < s.sz }

  predicate InSegment(s: State, v: nat) { InText(s.lay, v) || InData(s.lay, v) || InHeap(s, v) }

  /** Text and data end where the stack and then the heap begin. */
  ghost predicate GoodLayout(l: Layout)
  {
    l.textEnd <= l.heapStart && l.dataEnd <= l.heapStart
  }

  /** How many bytes of a page at offset o of a segment come from the file. */
  function ReadSize(o: nat, filesz: nat): (r: nat)
    ensures r <= PGSIZE
  {
    if o >= filesz then 0 else if o + PGSIZE > filesz then filesz - o else PGSIZE
  }

  /** The bytes of a segment's page: n bytes of the file from off, zero-padded. */
  function FilePage(exec: seq<Byte>, off: nat, n: nat): (p: Page)
    requires n <= PGSIZE
  {
    if off + n <= |exec| then exec[off..off + n] + Fill(0)[n..] else Fill(0)
  }

  function TextPage(l: Layout, v: nat): (p: Page)
    requires l.textStart <= v * PGSIZE
  {
    var o := v * PGSIZE - l.textStart;
    FilePage(l.exec, l.textOff + o, ReadSize(o, l.textFilesz))
  }

  function DataPage(l: Layout, v: nat): (p: Page)
    requires l.dataStart <= v * PGSIZE
  {
    var o := v * PGSIZE - l.dataStart;
    FilePage(l.exec, l.dataOff + o, ReadSize(o, l.dataFilesz))
  }

  /** The program file has the bytes of the page at offset o of a segment whose filesz bytes start at off. */
  predicate HasPage(exec: seq<Byte>, off: nat, filesz: nat, o: nat)
  {
    o < filesz ==> off + (if o + PGSIZE <= filesz then o + PGSIZE else filesz) <= |exec|
  }

  /** Byte q of such a page, and when the file has it. */
  lemma FilePageByte(exec: seq<Byte>, off: nat, filesz: nat, o: nat, q: nat)
    requires q < PGSIZE
    ensures HasPage(exec, off, filesz, o) <==> ReadSize(o, filesz) == 0 || off + o + ReadSize(o, filesz) <= |exec|
    ensures HasPage(exec, off, filesz, o) ==>
              FilePage(exec, off + o, ReadSize(o, filesz))[q] == if o + q < filesz then exec[off + (o + q)] else 0
  {
  }

  /** A text page is its part of the program file, byte by byte, and zero past the end of the segment's file bytes. */
  lemma TextByte(l: Layout, v: nat, q: nat)
    requires l.textStart <= v * PGSIZE && q < PGSIZE
    ensures var o := v * PGSIZE - l.textStart;
            HasPage(l.exec, l.textOff, l.textFilesz, o) ==>
              TextPage(l, v)[q] == if o + q < l.textFilesz then l.exec[l.textOff + (o + q)] else 0
  {
    hide FilePage, ReadSize;
    FilePageByte(l.exec, l.textOff, l.textFilesz, v * PGSIZE - l.textStart, q);
  }

  lemma DataByteOf(l: Layout, v: nat, q: nat)
    requires l.dataStart <= v * PGSIZE && q < PGSIZE
    ensures var o := v * PGSIZE - l.dataStart;
            HasPage(l.exec, l.dataOff, l.dataFilesz, o) ==>
              DataPage(l, v)[q] == if o + q < l.dataFilesz then l.exec[l.dataOff + (o + q)] else 0
  {
    hide FilePage, ReadSize;
    FilePageByte(l.exec, l.dataOff, l.dataFilesz, v * PGSIZE - l.dataStart, q);
  }

  // ----- what the user sees

  function SlotPage(file: seq<Byte>, k: int): (p: Page)
  {
    if 0 <= k && (k + 1) * PGSIZE <= |file| then file[k * PGSIZE..(k + 1) * PGSIZE] else Fill(0)
  }

  /** The contents of page v, wherever they are. */
  function View(s: State, v: nat): (p: Page)
  {
    if v in s.mem.pt then FrameAt(s.mem, v)
    else if v < |s.pages| && s.pages[v].state == Swapped then SlotPage(s.swap.file, s.pages[v].slot)
    else if InText(s.lay, v) then TextPage(s.lay, v)
    else Fill(0)
  }

  function FrameAt(m: Memory, v: nat): (p: Page)
    requires v in m.pt
  {
    if m.pt[v].frame in m.frames then m.frames[m.pt[v].frame] else Fill(0)
  }

  /** What a load from page v of the data segment finds: the page, or what a fault brings in. */
  function DataSeen(s: State, v: nat): (p: Page)
    requires s.lay.dataStart <= v * PGSIZE
  {
    if v in s.mem.pt then FrameAt(s.mem, v) else DataPage(s.lay, v)
  }

  /** Page v is served from the data segment: text comes first. */
  predicate DataOnly(l: Layout, v: nat) { InData(l, v) && !InText(l, v) }

  function Flat(s: State, v: nat): (p: Page)
  {
    if v in s.flat then s.flat[v] else Fill(0)
  }

  /** Paging is transparent: heap pages read as a flat memory would, text pages as the program file. */
  ghost predicate Transparent(s: State)
  {
    && (forall v: nat {:trigger View(s, v)} :: InHeap(s, v) ==> View(s, v) == Flat(s, v))
    && (forall v: nat {:trigger View(s, v)} :: InText(s.lay, v) ==> View(s, v) == TextPage(s.lay, v))
  }

  /** No page is swapped out.  The file may hold anything: create_swap_file also opens one that is there already. */
  ghost predicate NoneSwapped(w: Swap)
  {
    w.bitmap == seq(NSLOTS / 8, _ => 0) && w.used == 0 && w.slotOf == map[] && |w.file| <= MAXBYTES
  }

  // ----- the invariant, field group by field group

  /** Mapped frames are distinct, hold contents, and none is on the free list, which has no duplicates. */
  ghost predicate FramesOk(m: Memory)
  {
    && (forall v :: v in m.pt ==>
          m.pt[v].frame in m.frames && m.pt[v].frame in m.frameOf && m.frameOf[m.pt[v].frame] == v)
    && (forall f :: f in m.frameOf ==> m.frameOf[f] in m.pt && m.pt[m.frameOf[f]].frame == f)
    && (forall i :: 0 <= i < |m.free| ==> m.free[i] !in m.frameOf)
    && (forall i, j :: 0 <= i < j < |m.free| ==> m.free[i] != m.free[j])
  }

  /** The number of set bits among the first n. */
  ghost function PopCount(m: seq<Byte>, n: nat): (c: nat)
    requires n <= 8 * |m|
  {
    if n == 0 then 0 else PopCount(m, n - 1) + (if BitAt(m, n - 1) then 1 else 0)
  }

  /** A swap slot's bit is set exactly while one SWAPPED page holds it, its bytes lie inside the swap
      file, and swap_used counts the set bits. */
  ghost predicate SlotsOk(w: Swap, pages: seq<Info>)
  {
    && |w.bitmap| * 8 == NSLOTS && |pages| == NPAGES && |w.file| <= MAXBYTES
    && (forall k :: 0 <= k < NSLOTS ==> (BitAt(w.bitmap, k) <==> k in w.slotOf))
    && (forall k :: k in w.slotOf ==> SlotHeld(w, pages, k))
    && (forall v :: 0 <= v < NPAGES && pages[v].state == Swapped ==>
          pages[v].slot >= 0 && pages[v].slot in w.slotOf && w.slotOf[pages[v].slot] == v)
    && w.used == PopCount(w.bitmap, NSLOTS)
    && (w.slotOf != map[] ==> w.hasFile)
  }

  ghost predicate SlotHeld(w: Swap, pages: seq<Info>, k: nat)
    requires k in w.slotOf && |pages| == NPAGES
  {
    && k < NSLOTS && (k + 1) * PGSIZE <= |w.file|
    && w.slotOf[k] < NPAGES && pages[w.slotOf[k]].state == Swapped && pages[w.slotOf[k]].slot == k
  }

  /** The tracked resident pages in the order they became resident, which is the order of fifo_seq. */
  ghost predicate QueueOk(pages: seq<Info>, nextSeq: int, queue: seq<nat>)
  {
    && |pages| == NPAGES && nextSeq <= MAXSEQ
    && (forall v :: 0 <= v < NPAGES ==> (pages[v].state == Resident <==> v in queue))
    && (forall a :: 0 <= a < |queue| ==> queue[a] < NPAGES && pages[queue[a]].fifoSeq < nextSeq)
    && (forall a, b :: 0 <= a < b < |queue| ==> pages[queue[a]].fifoSeq < pages[queue[b]].fifoSeq)
  }

  /** The page-table pages down to page v exist. */
  predicate HasTables(m: Memory, v: nat)
  {
    v / 512 / 512 in m.tables1 && v / 512 in m.tables0
  }

  /** What the state of tracked page v says about its mapping. */
  ghost predicate LinkOk(s: State, v: nat)
    requires v < |s.pages|
  {
    && (s.pages[v].state == Resident ==> v in s.mem.pt && HasTables(s.mem, v))
    && (s.pages[v].state == Swapped ==> v !in s.mem.pt && HasTables(s.mem, v) && InHeap(s, v) && !s.pages[v].fromExec)
    && (s.pages[v].state == Resident && !InHeap(s, v) ==> s.pages[v].fromExec && !s.pages[v].dirty)
    && (s.pages[v].state == Resident && InHeap(s, v) ==> !s.pages[v].fromExec)
  }

  /** A page above the heap that sbrk may still hand out. */
  ghost predicate Untouched(s: State, v: nat)
  {
    v !in s.mem.pt && v !in s.flat && (v < |s.pages| ==> s.pages[v].state == Unmapped)
  }

  ghost predicate LinksOk(s: State)
  {
    && |s.pages| == NPAGES && GoodLayout(s.lay) && s.lay.heapStart <= s.sz <= TRAPFRAME * PGSIZE
    && (forall v :: 0 <= v < NPAGES ==> LinkOk(s, v))
    && (forall v :: v in s.mem.pt && InSegment(s, v) ==> s.mem.pt[v].writable == !InText(s.lay, v))
    && (forall v: nat :: s.sz <= v * PGSIZE < TRAPFRAME * PGSIZE ==> Untouched(s, v))
  }

  /** Everything but transparency. */
  ghost predicate Base(s: State)
  {
    FramesOk(s.mem) && SlotsOk(s.swap, s.pages) && QueueOk(s.pages, s.nextSeq, s.queue) && LinksOk(s)
  }

  ghost predicate Inv(s: State)
  {
    Base(s) && Transparent(s)
  }
}
