/** What can happen to a paged process of kernel/vm.c, event by event. */
module PagingEvents {
  import opened Blocks
  import opened FsContent
  import opened PagingState
  import opened PagingSteps

  datatype Event =
    | Faulted(v: nat, f: nat, p: Page, writable: bool, info: Info)
    | Discarded(v: nat, a: nat)
    | SwappedOut(v: nat, a: nat, k: nat)
    | SwapOutFailed(k: nat, bytes: seq<Byte>)
    | Opened
    | SwappedIn(v: nat, f: nat)
    | FramesMoved(m: Memory)
    | Stored(v: nat, o: nat, b: Byte)
    | Grew(n: nat)

  /** The page a fault on a page that is nowhere brings in. */
  ghost predicate FaultBrings(s: State, v: nat, p: Page)
  {
    && (InText(s.lay, v) ==> p == TextPage(s.lay, v))
    && (DataOnly(s.lay, v) ==> p == DataPage(s.lay, v))
    && (InHeap(s, v) && !InText(s.lay, v) ==> p == Fill(0))
  }

  ghost predicate Enabled(s: State, e: Event)
  {
    match e
    case Faulted(v, f, p, w, info) => CanEnter(s, v, f, w, info) && FaultBrings(s, v, p)
    case Discarded(v, a) => a < |s.queue| && s.queue[a] == v && v < |s.pages| && s.pages[v].fromExec &&
          !s.pages[v].dirty
    case SwappedOut(v, a, k) => CanSwapOut(s, v, a, k)
    case SwapOutFailed(k, bytes) => FirstFree(s.swap.bitmap, k) && |bytes| <= PGSIZE && (k + 1) * PGSIZE <= MAXBYTES
    case Opened => true
    case SwappedIn(v, f) => v < |s.pages| && s.pages[v].state == Swapped && s.nextSeq < MAXSEQ && LooseFrame(s.mem, f)
    case FramesMoved(m) => FramesOk(m) && SameMapping(s.mem, m)
    case Stored(v, o, _) => v in s.mem.pt && s.mem.pt[v].writable && o < PGSIZE
    case Grew(n) => s.sz + n <= TRAPFRAME * PGSIZE
  }

  /** Events that are no instruction of the process: the kernel's paging. */
  predicate Kernel(e: Event) { !e.Stored? && !e.Grew? }

  /** What the kernel's paging does. */
  ghost function Paged(s: State, e: Event): (r: State)
    requires Inv(s) && Enabled(s, e) && Kernel(e)
    ensures Inv(r) && r.lay == s.lay && r.flat == s.flat
  {
    match e
    case Faulted(v, f, p, w, info) => FaultOk(s, e); Enter(s, v, f, p, w, info)
    case Discarded(v, a) => DiscardInv(s, v, a); Discard(s, v, a)
    case SwappedOut(v, a, k) => SwapOutInv(s, v, a, k); SwapOut(s, v, a, k)
    case SwapOutFailed(k, bytes) => ScribbleInv(s, k, bytes); Scribble(s, k, bytes)
    case Opened => OpenFile(s); s.(swap := s.swap.(hasFile := true))
    case SwappedIn(v, f) => SwapInInv(s, v, f); SwapIn(s, v, f)
    case FramesMoved(m) => SameMappingInv(s, m); s.(mem := m)
  }

  ghost function After(s: State, e: Event): (r: State)
    requires Inv(s) && Enabled(s, e)
    ensures Inv(r) && r.lay == s.lay
    ensures !e.Stored? ==> r.flat == s.flat
    ensures e.Stored? ==> e.v in s.mem.pt && e.o < PGSIZE && r == StoreByte(s, e.v, e.o, e.b)
  {
    match e
    case Stored(v, o, b) => StoreInv(s, v, o, b); StoreByte(s, v, o, b)
    case Grew(n) => GrowInv(s, n); Grow(s, n)
    case _ => Paged(s, e)
  }

  lemma FaultOk(s: State, e: Event)
    requires Inv(s) && e.Faulted? && Enabled(s, e)
    ensures Inv(Enter(s, e.v, e.f, e.p, e.writable, e.info))
  {
    assert e.v < |s.pages| ==> s.pages[e.v].state == Unmapped;
    EnterInv(s, e.v, e.f, e.p, e.writable, e.info);
  }

  lemma OpenFile(s: State)
    requires Inv(s)
    ensures var r := s.(swap := s.swap.(hasFile := true)); Inv(r) && SameView(s, r)
  {
    var r := s.(swap := s.swap.(hasFile := true));
    SwapOnlyLinks(s, r);
    assert SlotsOk(r.swap, r.pages) by {
      forall k | k in r.swap.slotOf ensures SlotHeld(r.swap, r.pages, k) {
        assert SlotHeld(s.swap, s.pages, k);
      }
    }
    SameViewTransparent(s, r);
  }

  // ----- runs

  ghost predicate Legal(s: State, es: seq<Event>)
    requires Inv(s)
    decreases |es|, 0
  {
    es == [] || (Legal(s, es[..|es| - 1]) && Enabled(End(s, es[..|es| - 1]), es[|es| - 1]))
  }

  ghost function End(s: State, es: seq<Event>): (r: State)
    requires Inv(s) && Legal(s, es)
    ensures Inv(r) && r.lay == s.lay
    decreases |es|, 1
  {
    if es == [] then s else After(End(s, es[..|es| - 1]), es[|es| - 1])
  }

  lemma {:induction false} LegalBoth(s: State, a: seq<Event>, b: seq<Event>)
    requires Inv(s) && Legal(s, a) && Legal(End(s, a), b)
    ensures Legal(s, a + b) && End(s, a + b) == End(End(s, a), b)
    decreases |b|
  {
    hide Inv, Enabled, After;
    if b == [] {
      assert a + b == a;
    } else {
      var n := |b| - 1;
      LegalBoth(s, a, b[..n]);
      assert (a + b)[..|a + b| - 1] == a + b[..n] && (a + b)[|a + b| - 1] == b[n];
    }
  }

  ghost predicate KernelRun(s: State, es: seq<Event>, r: State)
  {
    Inv(s) && Legal(s, es) && End(s, es) == r && forall k :: 0 <= k < |es| ==> Kernel(es[k])
  }

  /** The kernel gets from s to r by paging events alone. */
  ghost predicate Pages(s: State, r: State)
  {
    exists es :: KernelRun(s, es, r)
  }

  lemma PagesSelf(s: State)
    requires Inv(s)
    ensures Pages(s, s)
  {
    hide Inv;
    assert KernelRun(s, [], s);
  }

  lemma PagesOne(s: State, e: Event)
    requires Inv(s) && Enabled(s, e) && Kernel(e)
    ensures Pages(s, After(s, e))
  {
    hide Inv, Enabled, After;
    assert [e][..0] == [] && Legal(s, []) && End(s, []) == s;
    assert KernelRun(s, [e], After(s, e));
  }

  lemma PagesTrans(a: State, b: State, c: State)
    requires Pages(a, b) && Pages(b, c)
    ensures Pages(a, c)
  {
    hide Inv, Enabled, After, Legal;
    var x :| KernelRun(a, x, b);
    var y :| KernelRun(b, y, c);
    LegalBoth(a, x, y);
    assert KernelRun(a, x + y, c);
  }

  // ----- the events the pager's code is made of

  lemma PagesMoved(s: State, m: Memory)
    requires Inv(s) && FramesOk(m) && SameMapping(s.mem, m)
    ensures Pages(s, s.(mem := m))
  {
    hide Inv, Pages, FramesOk, SameMapping;
    PagesOne(s, FramesMoved(m));
  }

  lemma PagesOpened(s: State)
    requires Inv(s)
    ensures Pages(s, s.(swap := s.swap.(hasFile := true)))
  {
    hide Inv, Pages;
    PagesOne(s, Opened);
  }

  lemma PagesDiscard(s: State, v: nat, a: nat)
    requires Inv(s) && a < |s.queue| && s.queue[a] == v && v < |s.pages| && s.pages[v].fromExec && !s.pages[v].dirty
    requires v in s.mem.pt
    ensures Pages(s, Discard(s, v, a))
  {
    hide Inv, Pages;
    PagesOne(s, Discarded(v, a));
  }

  lemma PagesOut(s: State, v: nat, a: nat, k: nat)
    requires Inv(s) && CanSwapOut(s, v, a, k) && v in s.mem.pt && k * PGSIZE <= |s.swap.file|
    ensures k < 8 * |s.swap.bitmap| && a < |s.queue| && v < |s.pages| && Pages(s, SwapOut(s, v, a, k))
  {
    hide Inv, Pages;
    PagesOne(s, SwappedOut(v, a, k));
  }

  lemma PagesFailed(s: State, k: nat, bytes: seq<Byte>)
    requires Inv(s) && FirstFree(s.swap.bitmap, k) && |bytes| <= PGSIZE && (k + 1) * PGSIZE <= MAXBYTES
    requires k * PGSIZE <= |s.swap.file|
    ensures Pages(s, Scribble(s, k, bytes))
  {
    hide Inv, Pages;
    PagesOne(s, SwapOutFailed(k, bytes));
  }

  lemma PagesIn(s: State, v: nat, f: nat)
    requires Inv(s) && v < |s.pages| && s.pages[v].state == Swapped && s.nextSeq < MAXSEQ && LooseFrame(s.mem, f)
    requires 0 <= s.pages[v].slot < 8 * |s.swap.bitmap|
    ensures Pages(s, SwapIn(s, v, f))
  {
    hide Inv, Pages;
    PagesOne(s, SwappedIn(v, f));
  }

  lemma PagesFault(s: State, v: nat, f: nat, p: Page, writable: bool, info: Info)
    requires Inv(s) && CanEnter(s, v, f, writable, info) && FaultBrings(s, v, p)
    ensures Pages(s, Enter(s, v, f, p, writable, info))
  {
    hide Inv, Pages, CanEnter, FaultBrings;
    PagesOne(s, Faulted(v, f, p, writable, info));
  }

  /** The kernel pages, and then byte b is stored at offset o of page v, which is there and may be written to. */
  ghost predicate StoresAt(s: State, v: nat, o: nat, b: Byte, r: State)
  {
    exists u :: Inv(u) && Pages(s, u) && Enabled(u, Stored(v, o, b)) && r == StoreByte(u, v, o, b)
  }

  lemma StoredAt(s: State, u: State, v: nat, o: nat, b: Byte)
    requires Inv(u) && Pages(s, u) && v in u.mem.pt && u.mem.pt[v].writable && o < PGSIZE
    ensures StoresAt(s, v, o, b, StoreByte(u, v, o, b))
  {
    hide Inv, Pages;
    assert Enabled(u, Stored(v, o, b));
  }
}
