/** Whole runs of the pager of kernel/vm.c: faults, evictions, swap-outs that succeed or fail, swap-ins,
    frames and page-table pages coming and going, user stores and sbrk growth, in any order.  Beside the
    run stands a memory without paging: a byte holds what was last stored there, or zero. */
module PagingRuns {
  import opened Blocks
  import opened FsContent
  import opened PagingState
  import opened PagingSteps
  import opened PagingEvents
  import opened Paging

  // ----- runs

  /** A process right after exec: nothing tracked is in memory, nothing is swapped out. */
  ghost predicate Fresh(s: State)
  {
    && GoodLayout(s.lay) && s.sz == s.lay.heapStart <= TRAPFRAME * PGSIZE && FramesOk(s.mem) && OnlyStack(s.lay, s.mem)
    && |s.pages| == NPAGES && (forall v :: 0 <= v < NPAGES ==> s.pages[v].state == Unmapped)
    && s.nextSeq == 1 && s.queue == [] && s.flat == map[]
    && NoneSwapped(s.swap) && s.swap.hasFile
  }

  /** The byte last stored at offset o of page v, zero if there was none. */
  function LastStored(es: seq<Event>, v: nat, o: nat): (b: Byte)
    decreases |es|
  {
    if es == [] then 0
    else
      var e := es[|es| - 1];
      if e.Stored? && e.v == v && e.o == o then e.b else LastStored(es[..|es| - 1], v, o)
  }

  /** From the start of the heap to the trap frame the flat memory holds what was last stored. */
  ghost predicate Tracks(s: State, es: seq<Event>)
  {
    forall v: nat, o: nat {:trigger Flat(s, v)[o]} ::
      s.lay.heapStart <= v * PGSIZE < TRAPFRAME * PGSIZE && o < PGSIZE ==> Flat(s, v)[o] == LastStored(es, v, o)
  }

  lemma StepTracks(s: State, es: seq<Event>, e: Event)
    requires Inv(s) && Tracks(s, es) && Enabled(s, e)
    ensures Tracks(After(s, e), es + [e])
  {
    hide Inv, After, Enabled, Flat;
    var r := After(s, e);
    forall v: nat, o: nat {:trigger Flat(r, v)[o]} | s.lay.heapStart <= v * PGSIZE < TRAPFRAME * PGSIZE && o < PGSIZE
      ensures Flat(r, v)[o] == LastStored(es + [e], v, o)
    {
      assert (es + [e])[..|es|] == es;
      assert Flat(s, v)[o] == LastStored(es, v, o);
      if e.Stored? {
        StoredInHeap(s, e.v);
        StoredFlat(s, e.v, e.o, e.b, v);
      } else {
        SameFlat(s, r, v);
      }
    }
  }

  lemma StoredFlat(s: State, v: nat, o: nat, b: Byte, x: nat)
    requires v in s.mem.pt && o < PGSIZE
    ensures Flat(StoreByte(s, v, o, b), x) == if x == v && InHeap(s, v) then Flat(s, v)[o := b] else Flat(s, x)
  {
  }

  lemma SameFlat(s: State, r: State, v: nat)
    requires r.flat == s.flat
    ensures Flat(r, v) == Flat(s, v)
  {
  }

  /** A page above the start of the heap that is mapped lies in the heap. */
  lemma StoredInHeap(s: State, v: nat)
    requires Inv(s) && v in s.mem.pt
    ensures s.lay.heapStart <= v * PGSIZE < TRAPFRAME * PGSIZE ==> InHeap(s, v)
  {
    assert s.sz <= v * PGSIZE < TRAPFRAME * PGSIZE ==> Untouched(s, v);
  }

  lemma {:induction false} RunTracks(s: State, es: seq<Event>)
    requires Inv(s) && s.flat == map[] && Legal(s, es)
    ensures Tracks(End(s, es), es)
    decreases |es|
  {
    hide Inv, After, Enabled;
    if es != [] {
      var n := |es| - 1;
      RunTracks(s, es[..n]);
      StepTracks(End(s, es[..n]), es[..n], es[n]);
      assert es[..n] + [es[n]] == es;
    }
  }

  /** Paging is transparent in every run: whatever has been evicted, swapped and brought back since exec,
      each byte of the heap is the one last stored there, or zero, and each text page is its part of the
      program file. */
  lemma RunTransparent(s: State, es: seq<Event>, v: nat, o: nat)
    requires Fresh(s) && o < PGSIZE
    ensures Inv(s)
    ensures Legal(s, es) && InHeap(End(s, es), v) ==> View(End(s, es), v)[o] == LastStored(es, v, o)
    ensures Legal(s, es) && InText(s.lay, v) ==> View(End(s, es), v) == TextPage(s.lay, v)
    ensures Legal(s, es) && InText(s.lay, v) ==>
              var l, x := s.lay, v * PGSIZE - s.lay.textStart;
              (HasPage(l.exec, l.textOff, l.textFilesz, x) ==>
                View(End(s, es), v)[o] == if x + o < l.textFilesz then l.exec[l.textOff + (x + o)] else 0)
  {
    hide After, Enabled, TextPage, HasPage, Base;
    FreshInv(s);
    if Legal(s, es) {
      RunTracks(s, es);
      var r := End(s, es);
      HeapBelowTrap(r);
      assert InHeap(r, v) ==> View(r, v) == Flat(r, v) && Flat(r, v)[o] == LastStored(es, v, o);
      if InText(r.lay, v) {
        assert View(r, v) == TextPage(r.lay, v);
        TextByte(r.lay, v, o);
      }
    }
  }

  lemma HeapBelowTrap(s: State)
    requires Inv(s)
    ensures s.sz <= TRAPFRAME * PGSIZE
  {
  }

  // ----- runs of calls

  /** What a call of the pager's code does to the process: a load, or a fault or an eviction by itself, only pages;
      a store that succeeds pages and then stores; sbrk grows. */
  datatype Call = Reads | Writes(v: nat, o: nat, b: Byte) | Grows(n: nat)

  ghost predicate Does(s: State, c: Call, r: State)
  {
    match c
    case Reads => Pages(s, r)
    case Writes(v, o, b) => StoresAt(s, v, o, b, r)
    case Grows(n) => Inv(s) && Enabled(s, Grew(n)) && r == After(s, Grew(n))
  }

  /** The byte last written at offset o of page v by a call. */
  function LastWritten(cs: seq<Call>, v: nat, o: nat): (b: Byte)
    decreases |cs|
  {
    if cs == [] then 0
    else
      var c := cs[|cs| - 1];
      if c.Writes? && c.v == v && c.o == o then c.b else LastWritten(cs[..|cs| - 1], v, o)
  }

  ghost predicate Calls(ss: seq<State>, cs: seq<Call>)
  {
    |ss| == |cs| + 1 && forall k :: 0 <= k < |cs| ==> Does(ss[k], cs[k], ss[k + 1])
  }

  /** Events that store nothing leave what was last stored. */
  lemma {:induction false} KernelStores(es: seq<Event>, more: seq<Event>, v: nat, o: nat)
    requires forall k :: 0 <= k < |more| ==> !more[k].Stored?
    ensures LastStored(es + more, v, o) == LastStored(es, v, o)
    decreases |more|
  {
    if more == [] {
      assert es + more == es;
    } else {
      var n := |more| - 1;
      assert (es + more)[..|es + more| - 1] == es + more[..n] && (es + more)[|es + more| - 1] == more[n];
      KernelStores(es, more[..n], v, o);
    }
  }

  /** The events of one call after those of a run. */
  lemma CallRuns(s0: State, es: seq<Event>, s: State, c: Call, r: State) returns (ds: seq<Event>)
    requires Inv(s0) && Legal(s0, es) && End(s0, es) == s && Does(s, c, r)
    ensures Legal(s0, es + ds) && End(s0, es + ds) == r
    ensures forall v: nat, o: nat :: LastStored(es + ds, v, o) ==
              if c.Writes? && c.v == v && c.o == o then c.b else LastStored(es, v, o)
  {
    hide Inv, Enabled, After, Legal, End, LastStored;
    match c {
      case Reads =>
        ds := PageRuns(s0, es, s, r);
      case Writes(v, o, b) =>
        var u := StoredFrom(s, v, o, b, r);
        var ps := PageRuns(s0, es, s, u);
        LegalOne(s0, es + ps, u, Stored(v, o, b));
        ds := ps + [Stored(v, o, b)];
        assert es + ds == es + ps + [Stored(v, o, b)];
      case Grows(n) =>
        LegalOne(s0, es, s, Grew(n));
        ds := [Grew(n)];
    }
  }

  lemma StoredFrom(s: State, v: nat, o: nat, b: Byte, r: State) returns (u: State)
    requires StoresAt(s, v, o, b, r)
    ensures Inv(u) && Pages(s, u) && Enabled(u, Stored(v, o, b)) && r == After(u, Stored(v, o, b))
  {
    hide Inv, Pages;
    u :| Inv(u) && Pages(s, u) && Enabled(u, Stored(v, o, b)) && r == StoreByte(u, v, o, b);
  }

  lemma PageRuns(s0: State, es: seq<Event>, s: State, r: State) returns (ps: seq<Event>)
    requires Inv(s0) && Legal(s0, es) && End(s0, es) == s && Pages(s, r)
    ensures Legal(s0, es + ps) && End(s0, es + ps) == r
    ensures forall v: nat, o: nat :: LastStored(es + ps, v, o) == LastStored(es, v, o)
  {
    hide Inv, Enabled, After, Legal, End, LastStored;
    ps :| KernelRun(s, ps, r);
    LegalBoth(s0, es, ps);
    forall v: nat, o: nat ensures LastStored(es + ps, v, o) == LastStored(es, v, o) {
      KernelStores(es, ps, v, o);
    }
  }

  /** One more event. */
  lemma LegalOne(s0: State, es: seq<Event>, s: State, e: Event)
    requires Inv(s0) && Legal(s0, es) && End(s0, es) == s && Enabled(s, e)
    ensures Legal(s0, es + [e]) && End(s0, es + [e]) == After(s, e)
    ensures forall v: nat, o: nat :: LastStored(es + [e], v, o) ==
              if e.Stored? && e.v == v && e.o == o then e.b else LastStored(es, v, o)
  {
    hide Inv, Enabled, After;
    assert (es + [e])[..|es + [e]| - 1] == es;
  }

  /** Every run of calls is a run of events that stores the same bytes. */
  lemma {:induction false} CallsRun(ss: seq<State>, cs: seq<Call>) returns (es: seq<Event>)
    requires Calls(ss, cs) && Inv(ss[0])
    ensures Legal(ss[0], es) && End(ss[0], es) == ss[|cs|]
    ensures forall v: nat, o: nat :: LastStored(es, v, o) == LastWritten(cs, v, o)
    decreases |cs|
  {
    hide Inv, Does;
    if cs == [] {
      es := [];
    } else {
      var n := |cs| - 1;
      var a := CallsRun(ss[..n + 1], cs[..n]);
      hide Legal, End, LastStored;
      var ds := CallRuns(ss[0], a, ss[n], cs[n], ss[n + 1]);
      es := a + ds;
    }
  }

  /** Over every run of calls of the pager's code, from exec on: each byte of the heap is the one last stored there,
      or zero, and each text page is its part of the program file. */
  lemma CallsTransparent(ss: seq<State>, cs: seq<Call>, v: nat, o: nat)
    requires Calls(ss, cs) && Fresh(ss[0]) && o < PGSIZE
    ensures var r := ss[|cs|];
            && (InHeap(r, v) ==> View(r, v)[o] == LastWritten(cs, v, o))
            && (InText(ss[0].lay, v) ==> View(r, v) == TextPage(ss[0].lay, v))
  {
    hide Inv, Does, Legal, End, View, TextPage, LastStored, LastWritten;
    FreshInv(ss[0]);
    var es := CallsRun(ss, cs);
    RunTransparent(ss[0], es, v, o);
  }

  // ----- data pages

  /** The byte at offset o of data page v last stored since the page was last discarded, or its file byte. */
  ghost function DataByte(l: Layout, es: seq<Event>, v: nat, o: nat): (b: Byte)
    requires l.dataStart <= v * PGSIZE && o < PGSIZE
    decreases |es|
  {
    if es == [] then DataPage(l, v)[o]
    else
      var e := es[|es| - 1];
      if e.Stored? && e.v == v && e.o == o then e.b
      else if e.Discarded? && e.v == v then DataPage(l, v)[o]
      else DataByte(l, es[..|es| - 1], v, o)
  }

  /** A page of the data segment is not in the heap and never swapped out. */
  lemma DataApart(s: State, v: nat)
    requires Inv(s) && DataOnly(s.lay, v)
    ensures !InHeap(s, v) && (v < |s.pages| ==> s.pages[v].state != Swapped)
    ensures v < |s.pages| && s.pages[v].state == Resident ==> s.pages[v].fromExec && !s.pages[v].dirty
  {
    SegmentsBelowHeap(s, v);
    assert v < |s.pages| ==> LinkOk(s, v);
  }

  /** Only a store to it and its own eviction change a data page. */
  lemma DataStep(s: State, e: Event, v: nat)
    requires Inv(s) && Enabled(s, e) && DataOnly(s.lay, v)
    ensures After(s, e).lay == s.lay
    ensures DataSeen(After(s, e), v) ==
              if e.Stored? && e.v == v then DataSeen(s, v)[e.o := e.b]
              else if e.Discarded? && e.v == v then DataPage(s.lay, v) else DataSeen(s, v)
  {
    hide Inv, After, Enabled, DataSeen, DataPage;
    if e.Faulted? || e.Discarded? || e.Stored? {
      DataStepOwn(s, e, v);
    } else {
      DataStepElse(s, e, v);
    }
  }

  lemma DataStepOwn(s: State, e: Event, v: nat)
    requires Inv(s) && Enabled(s, e) && DataOnly(s.lay, v) && (e.Faulted? || e.Discarded? || e.Stored?)
    ensures DataSeen(After(s, e), v) ==
              if e.Stored? && e.v == v then DataSeen(s, v)[e.o := e.b]
              else if e.Discarded? && e.v == v then DataPage(s.lay, v) else DataSeen(s, v)
  {
    hide Inv, DataPage, SlotPage, TextPage;
    DataApart(s, v);
    FramesOf(s);
    match e {
      case Faulted(x, f, p, w, info) => EnterView(s, x, f, p, w, info, v);
      case Discarded(x, a) => LeftFrames(s, x, a, v);
      case Stored(x, o, b) => StoreView(s, x, o, b, v);
    }
  }

  lemma FramesOf(s: State)
    requires Inv(s)
    ensures FramesOk(s.mem)
  {
  }

  lemma DataStepElse(s: State, e: Event, v: nat)
    requires Inv(s) && Enabled(s, e) && DataOnly(s.lay, v) && !e.Faulted? && !e.Discarded? && !e.Stored?
    ensures DataSeen(After(s, e), v) == DataSeen(s, v)
  {
    hide Inv, DataPage, SlotPage, TextPage, CanSwapOut;
    DataApart(s, v);
    FramesOf(s);
    match e {
      case SwappedOut(x, a, k) => DataSwapOut(s, x, a, k, v);
      case SwapOutFailed(k, bytes) =>
      case SwappedIn(x, f) => DataSwapIn(s, x, f, v);
      case Opened =>
      case FramesMoved(m) =>
      case Grew(n) =>
    }
  }

  lemma DataSwapOut(s: State, x: nat, a: nat, k: nat, v: nat)
    requires Inv(s) && CanSwapOut(s, x, a, k) && DataOnly(s.lay, v)
    ensures x != v && x in s.mem.pt && x < |s.pages| && a < |s.queue| && k < 8 * |s.swap.bitmap|
    ensures k * PGSIZE <= |s.swap.file|
    ensures var r := SwapOut(s, x, a, k);
            (v in r.mem.pt <==> v in s.mem.pt) && (v in s.mem.pt ==> FrameAt(r.mem, v) == FrameAt(s.mem, v))
  {
    DataApart(s, v);
    SwapOutFacts(s, x, a, k);
    hide Splice;
    FreeFrameOk(s.mem, x);
  }

  lemma LeftFrames(s: State, x: nat, a: nat, v: nat)
    requires Inv(s) && Enabled(s, Discarded(x, a))
    ensures x in s.mem.pt
    ensures var r := Discard(s, x, a); x !in r.mem.pt && (v != x ==> (v in r.mem.pt <==> v in s.mem.pt))
    ensures v in s.mem.pt && v != x ==> FrameAt(Discard(s, x, a).mem, v) == FrameAt(s.mem, v)
  {
    DiscardInv(s, x, a);
    hide Inv;
    FreeFrameOk(s.mem, x);
  }

  lemma DataSwapIn(s: State, x: nat, f: nat, v: nat)
    requires Inv(s) && Enabled(s, SwappedIn(x, f)) && DataOnly(s.lay, v)
    ensures x != v && 0 <= s.pages[x].slot < 8 * |s.swap.bitmap|
    ensures var r := SwapIn(s, x, f);
            (v in r.mem.pt <==> v in s.mem.pt) && (v in s.mem.pt ==> FrameAt(r.mem, v) == FrameAt(s.mem, v))
  {
    DataApart(s, v);
    SwapInInv(s, x, f);
  }

  ghost predicate DataTracks(s: State, es: seq<Event>)
  {
    forall v: nat, o: nat {:trigger DataSeen(s, v)[o]} ::
      DataOnly(s.lay, v) && o < PGSIZE ==> DataSeen(s, v)[o] == DataByte(s.lay, es, v, o)
  }

  lemma StepDataTracks(s: State, es: seq<Event>, e: Event)
    requires Inv(s) && DataTracks(s, es) && Enabled(s, e)
    ensures DataTracks(After(s, e), es + [e])
  {
    hide Inv, After, Enabled, DataSeen;
    var r := After(s, e);
    forall v: nat, o: nat | DataOnly(s.lay, v) && o < PGSIZE
      ensures DataSeen(r, v)[o] == DataByte(r.lay, es + [e], v, o)
    {
      assert (es + [e])[..|es|] == es;
      DataStep(s, e, v);
      assert DataSeen(s, v)[o] == DataByte(s.lay, es, v, o);
    }
  }

  lemma {:induction false} RunDataTracks(s: State, es: seq<Event>)
    requires Fresh(s) && Inv(s) && Legal(s, es)
    ensures DataTracks(End(s, es), es)
    decreases |es|
  {
    hide Inv, After, Enabled;
    if es != [] {
      var n := |es| - 1;
      RunDataTracks(s, es[..n]);
      StepDataTracks(End(s, es[..n]), es[..n], es[n]);
      assert es[..n] + [es[n]] == es;
    }
  }

  predicate DiscardedIn(es: seq<Event>, v: nat) { exists i :: 0 <= i < |es| && es[i].Discarded? && es[i].v == v }

  predicate StoredIn(es: seq<Event>, v: nat, o: nat)
  {
    exists i :: 0 <= i < |es| && es[i].Stored? && es[i].v == v && es[i].o == o
  }

  lemma {:induction false} LastStoreByte(l: Layout, pre: seq<Event>, v: nat, o: nat, b: Byte, post: seq<Event>)
    requires l.dataStart <= v * PGSIZE && o < PGSIZE && !StoredIn(post, v, o)
    ensures DataByte(l, pre + [Stored(v, o, b)] + post, v, o) == if DiscardedIn(post, v) then DataPage(l, v)[o] else b
    decreases |post|
  {
    var es := pre + [Stored(v, o, b)] + post;
    if post == [] {
      assert es == pre + [Stored(v, o, b)];
    } else {
      var n := |post| - 1;
      var rest := post[..n];
      assert es[..|es| - 1] == pre + [Stored(v, o, b)] + rest && es[|es| - 1] == post[n];
      assert !StoredIn(rest, v, o) by {
        assert forall i :: 0 <= i < n ==> rest[i] == post[i];
      }
      assert DiscardedIn(post, v) <==> DiscardedIn(rest, v) || (post[n].Discarded? && post[n].v == v) by {
        assert forall i :: 0 <= i < n ==> rest[i] == post[i];
      }
      LastStoreByte(l, pre, v, o, b, rest);
    }
  }

  /** What a data page holds, in every run since exec: each byte is the one last stored since the page was last
      discarded, or the one of the program file. */
  lemma RunData(s: State, es: seq<Event>, v: nat, o: nat)
    requires Fresh(s) && DataOnly(s.lay, v) && o < PGSIZE
    ensures Inv(s)
    ensures Legal(s, es) ==> End(s, es).lay == s.lay && DataSeen(End(s, es), v)[o] == DataByte(s.lay, es, v, o)
    ensures Legal(s, es) && !StoredIn(es, v, o) ==>
              var l, x := s.lay, v * PGSIZE - s.lay.dataStart;
              (HasPage(l.exec, l.dataOff, l.dataFilesz, x) ==>
                DataSeen(End(s, es), v)[o] == if x + o < l.dataFilesz then l.exec[l.dataOff + (x + o)] else 0)
  {
    hide Inv, After, Enabled, DataPage, HasPage, DataSeen, DataByte, StoredIn, Legal, End;
    FreshInv(s);
    if Legal(s, es) {
      RunDataTracks(s, es);
      if !StoredIn(es, v, o) {
        NeverStored(s.lay, es, v, o);
        DataByteOf(s.lay, v, o);
      }
    }
  }

  lemma {:induction false} NeverStored(l: Layout, es: seq<Event>, v: nat, o: nat)
    requires l.dataStart <= v * PGSIZE && o < PGSIZE && !StoredIn(es, v, o)
    ensures DataByte(l, es, v, o) == DataPage(l, v)[o]
    decreases |es|
  {
    hide DataPage;
    if es != [] {
      var n := |es| - 1;
      assert forall i :: 0 <= i < n ==> es[..n][i] == es[i];
      NeverStored(l, es[..n], v, o);
    }
  }

  /** The byte last stored at a place of a data page is still there if and only if the page has not been discarded
      since, or the byte is the one of the program file. */
  lemma StoreSurvives(s: State, pre: seq<Event>, v: nat, o: nat, b: Byte, post: seq<Event>)
    requires Fresh(s) && DataOnly(s.lay, v) && o < PGSIZE && !StoredIn(post, v, o)
    ensures Inv(s)
    ensures var es := pre + [Stored(v, o, b)] + post;
            Legal(s, es) ==>
              && End(s, es).lay == s.lay
              && (DataSeen(End(s, es), v)[o] == b <==> !DiscardedIn(post, v) || DataPage(s.lay, v)[o] == b)
  {
    RunData(s, pre + [Stored(v, o, b)] + post, v, o);
    LastStoreByte(s.lay, pre, v, o, b, post);
  }

  /** One more event. */
  lemma Extend(s: State, es: seq<Event>, e: Event)
    requires Inv(s) && Legal(s, es) && Enabled(End(s, es), e)
    ensures Legal(s, es + [e]) && End(s, es + [e]) == After(End(s, es), e)
  {
    hide Inv, After, Enabled;
    assert (es + [e])[..|es|] == es;
  }

  lemma CanLose(s: State, v: nat, o: nat, b: Byte)
    requires Inv(s) && DataOnly(s.lay, v) && o < PGSIZE && s.queue != [] && s.queue[0] == v && v < |s.pages|
    ensures Enabled(s, Stored(v, o, b)) && Enabled(After(s, Stored(v, o, b)), Discarded(v, 0))
  {
    DataApart(s, v);
    assert s.queue[0] in s.queue && LinkOk(s, v);
    assert InSegment(s, v);
  }

  /** In whatever state a run has reached, a byte stored to a tracked data page in memory is lost when the page is
      the next to be evicted, unless it is the one of the program file. */
  lemma StoreCanBeLost(s: State, es: seq<Event>, v: nat, o: nat, b: Byte)
    requires Fresh(s) && DataOnly(s.lay, v) && o < PGSIZE && Inv(s) && Legal(s, es)
    requires End(s, es).queue != [] && End(s, es).queue[0] == v && v < |End(s, es).pages|
    ensures var all := es + [Stored(v, o, b)] + [Discarded(v, 0)];
            Legal(s, all) && End(s, all).lay == s.lay && DataSeen(End(s, all), v)[o] == DataPage(s.lay, v)[o]
  {
    hide Inv, After, Enabled, Fresh, DataSeen;
    var r := End(s, es);
    CanLose(r, v, o, b);
    var st, di := Stored(v, o, b), Discarded(v, 0);
    Extend(s, es, st);
    Extend(s, es + [st], di);
    RunData(s, es + [st] + [di], v, o);
    var all := es + [st] + [di];
    assert all[|all| - 1] == di;
  }

  // ----- a run that loses a byte

  /** One data page, whose first byte in the program file is 9, a page table for it and one free frame. */
  ghost function OneDataPage(): (s: State)
  {
    State(Layout(0, 0, 0, 0, 0, PGSIZE, 0, 1, PGSIZE, [9]), PGSIZE, Memory(map[], {0}, {0}, map[], [7], map[]),
          Swap(seq(NSLOTS / 8, _ => 0), 0, true, [], map[]), seq(NPAGES, _ => Info(Unmapped, false, 0, 0, false)), 1,
                [], map[])
  }

  ghost function LoadIt(): (e: Event)
  {
    Faulted(0, 7, DataPage(OneDataPage().lay, 0), true, Info(Unmapped, false, 0, 0, true))
  }

  /** Page 0 out of memory, its frame the one free: it can be brought in. */
  ghost predicate Out(s: State)
  {
    && Inv(s) && s.lay == OneDataPage().lay && s.sz == PGSIZE && s.mem.pt == map[] && s.mem.frameOf == map[]
    && s.mem.free == [7]
    && s.mem.tables1 == s.mem.tables0 == {0} && s.queue == [] && s.nextSeq < MAXSEQ
    && |s.pages| == NPAGES && s.pages[0].state == Unmapped
  }

  /** Page 0 in memory, in frame 7. */
  ghost predicate Loaded(s: State)
  {
    && Inv(s) && s.lay == OneDataPage().lay && s.sz == PGSIZE && s.mem.pt.Keys == {0} && s.mem.pt[0].frame == 7
    && s.mem.free == []
    && s.mem.tables1 == s.mem.tables0 == {0} && s.queue == [0] && s.nextSeq < MAXSEQ
  }

  /** kalloc and the fault of an access to page 0. */
  lemma FaultIn(s: State)
    requires Out(s) && s.nextSeq + 1 < MAXSEQ
    ensures var m := FramesMoved(PopFree(s.mem));
            && Enabled(s, m) && Enabled(After(s, m), LoadIt())
            && var r := After(After(s, m), LoadIt()); Loaded(r) && r.nextSeq == s.nextSeq + 1
  {
    hide Inv, FramesOk, DataPage;
    FramesOf(s);
    PopFreeOk(s.mem);
    LoadsIt(After(s, FramesMoved(PopFree(s.mem))));
  }

  lemma LoadsIt(s: State)
    requires Inv(s) && s.lay == OneDataPage().lay && s.sz == PGSIZE && s.mem.pt == map[] && s.mem.frameOf == map[]
    requires s.mem.free == [] && s.mem.tables1 == s.mem.tables0 == {0} && s.queue == [] && s.nextSeq + 1 < MAXSEQ
    requires |s.pages| > 0 && s.pages[0].state == Unmapped
    ensures Enabled(s, LoadIt())
    ensures var r := After(s, LoadIt()); Loaded(r) && r.nextSeq == s.nextSeq + 1
  {
    hide Inv, DataPage;
  }

  /** A store to page 0, and its eviction. */
  lemma StoreIn(s: State, b: Byte)
    requires Loaded(s)
    ensures Enabled(s, Stored(0, 0, b)) && Loaded(After(s, Stored(0, 0, b)))
    ensures After(s, Stored(0, 0, b)).nextSeq == s.nextSeq
  {
    assert |s.pages| == NPAGES;
    CanLose(s, 0, 0, b);
  }

  lemma EvictIt(s: State)
    requires Loaded(s)
    ensures Enabled(s, Discarded(0, 0))
    ensures var r := After(s, Discarded(0, 0)); Out(r) && r.nextSeq == s.nextSeq
  {
    assert |s.pages| == NPAGES;
    DataApart(s, 0);
    assert 0 in s.queue && s.pages[0].state == Resident;
    LeftFrames(s, 0, 0, 0);
    hide Inv;
    var r := After(s, Discarded(0, 0));
    FramesEmpty(r);
  }

  lemma FramesEmpty(s: State)
    requires Inv(s) && s.mem.pt == map[]
    ensures s.mem.frameOf == map[]
  {
    forall f ensures f !in s.mem.frameOf {
    }
  }

  lemma StartOut()
    ensures var s := OneDataPage();
            Fresh(s) && Out(s) && s.nextSeq == 1 && DataOnly(s.lay, 0) && DataPage(s.lay, 0)[0] == 9
  {
    FreshInv(OneDataPage());
  }

  lemma RunFaultIn(s: State, es: seq<Event>) returns (m: Event)
    requires Inv(s) && Legal(s, es) && Out(End(s, es)) && End(s, es).nextSeq < 5
    ensures m.FramesMoved? && Legal(s, es + [m] + [LoadIt()])
    ensures var r := End(s, es + [m] + [LoadIt()]); Loaded(r) && r.nextSeq == End(s, es).nextSeq + 1
  {
    var r := End(s, es);
    assert r.mem.free != [];
    hide Inv, After, Enabled, Out, Loaded, LoadIt;
    m := FramesMoved(PopFree(r.mem));
    FaultIn(r);
    Extend(s, es, m);
    Extend(s, es + [m], LoadIt());
  }

  lemma RunStoreAndEvict(s: State, es: seq<Event>, b: Byte)
    requires Inv(s) && Legal(s, es) && Loaded(End(s, es))
    ensures var all := es + [Stored(0, 0, b)] + [Discarded(0, 0)];
            Legal(s, all) && Out(End(s, all)) && End(s, all).nextSeq == End(s, es).nextSeq
  {
    var r := End(s, es);
    hide Inv, After, Enabled, Out, Loaded;
    StoreIn(r, b);
    Extend(s, es, Stored(0, 0, b));
    EvictIt(After(r, Stored(0, 0, b)));
    Extend(s, es + [Stored(0, 0, b)], Discarded(0, 0));
  }

  /** The page is brought in, b is stored in its first byte, it is evicted and brought in again. */
  lemma LosingRun(s: State, b: Byte) returns (es1: seq<Event>, m: Event)
    requires Inv(s) && Out(s) && s.nextSeq == 1
    ensures m.FramesMoved?
    ensures var es := es1 + [Stored(0, 0, b)] + [Discarded(0, 0)] + [m] + [LoadIt()]; Legal(s, es) && Loaded(End(s, es))
  {
    hide Inv, Out, Loaded, LoadIt, Legal;
    NoEvents(s);
    m := RunFaultIn(s, []);
    es1 := [] + [m] + [LoadIt()];
    RunStoreAndEvict(s, es1, b);
    m := RunFaultIn(s, es1 + [Stored(0, 0, b)] + [Discarded(0, 0)]);
  }

  /** So a 5 is lost: the page is in memory, nothing but the 5 was ever stored in that byte, and it is 9. */
  lemma LostByte() returns (es: seq<Event>)
    ensures var s := OneDataPage();
            && Fresh(s) && Inv(s) && Legal(s, es) && 0 in End(s, es).mem.pt
            && LastStored(es, 0, 0) == 5 && View(End(s, es), 0)[0] == 9
  {
    hide Inv, Fresh, Out, OneDataPage, LoadIt, DataPage, Legal, DataOnly;
    var s := OneDataPage();
    StartOut();
    StartInv();
    var es1, m := LosingRun(s, 5);
    es := es1 + [Stored(0, 0, 5)] + [Discarded(0, 0)] + [m] + [LoadIt()];
    NotAStore();
    StoreThen(es1, Stored(0, 0, 5), Discarded(0, 0), m, LoadIt());
    var post := [Discarded(0, 0), m, LoadIt()];
    assert es == es1 + [Stored(0, 0, 5)] + post;
    assert post[0].Discarded?;
    DataStart(s.lay);
    LastStoreByte(s.lay, es1, 0, 0, 5, post);
    RunData(s, es, 0, 0);
  }

  lemma DataStart(l: Layout)
    requires DataOnly(l, 0)
    ensures l.dataStart == 0
  {
  }

  lemma StartInv()
    ensures Inv(OneDataPage())
  {
    StartOut();
  }

  lemma NoEvents(s: State)
    requires Inv(s)
    ensures Legal(s, []) && End(s, []) == s
  {
  }

  lemma NotAStore()
    ensures LoadIt().Faulted?
  {
  }

  lemma StoreThen(es: seq<Event>, st: Event, a: Event, b: Event, c: Event)
    requires st.Stored? && !a.Stored? && !b.Stored? && !c.Stored?
    ensures LastStored(es + [st] + [a] + [b] + [c], st.v, st.o) == st.b
  {
    var e1 := es + [st];
    var e2 := e1 + [a];
    var e3 := e2 + [b];
    assert e1[..|es|] == es && e2[..|e1|] == e1 && e3[..|e2|] == e2 && (e3 + [c])[..|e3|] == e3;
    assert LastStored(e1, st.v, st.o) == st.b;
    assert LastStored(e2, st.v, st.o) == st.b;
    assert LastStored(e3, st.v, st.o) == st.b;
  }
}
