/** Sv39 page tables of kernel/vm.c as 512-word pages in physical frames, beside the free list of
    kernel/kalloc.c; `own` says what every frame in use by a page table is used for. */
module PageTableState {
  const ENTRIES := 512
  /** MAXVA in pages: bits 12 to 37 of an address. */
  const MAXVPN := 0x400_0000
  const TRAMPOLINE := MAXVPN - 1
  const TRAPFRAME := MAXVPN - 2

  type Table = t: seq<nat> | |t| == ENTRIES witness seq(ENTRIES, _ => 0)

  function ZeroTable(): (t: Table)
    ensures forall k :: 0 <= k < ENTRIES ==> t[k] == 0
  {
    seq(ENTRIES, _ => 0)
  }

  // ----- page-table entries: PA2PTE, PTE2PA, PTE_FLAGS

  function Encode(frame: nat, flags: nat): (w: nat) { frame * 1024 + flags }

  function FrameOf(w: nat): (f: nat) { w / 1024 }

  function Flags(w: nat): (g: nat) { w % 1024 }

  predicate Valid(w: nat) { w % 2 == 1 }

  /** PTE_R, PTE_W or PTE_X is set: the entry is a leaf. */
  predicate IsLeaf(w: nat) { w / 2 % 8 != 0 }

  /** perm | PTE_V */
  function OrV(perm: nat): (g: nat) { if perm % 2 == 1 then perm else perm + 1 }

  lemma EncodeFrame(frame: nat, flags: nat)
    requires flags < 1024
    ensures (frame * 1024 + flags) / 1024 == frame && (frame * 1024 + flags) % 1024 == flags
  {
  }

  lemma EncodeHalf(frame: nat, flags: nat)
    ensures (frame * 1024 + flags) / 2 == frame * 512 + flags / 2 && (frame * 1024 + flags) % 2 == flags % 2
  {
  }

  lemma EncodeRwx(frame: nat, half: nat)
    ensures (frame * 512 + half) % 8 == half % 8
  {
  }

  lemma EncodeParts(frame: nat, flags: nat)
    requires flags < 1024
    ensures FrameOf(Encode(frame, flags)) == frame && Flags(Encode(frame, flags)) == flags
    ensures Valid(Encode(frame, flags)) == Valid(flags) && IsLeaf(Encode(frame, flags)) == IsLeaf(flags)
  {
    EncodeFrame(frame, flags);
    EncodeHalf(frame, flags);
    EncodeRwx(frame, flags / 2);
  }

  // ----- the 9/9/9 split of a page number

  function A(v: nat): (i: nat) { v / 0x40000 }
  function B(v: nat): (i: nat) ensures i < ENTRIES { v / 0x200 % 0x200 }
  function C(v: nat): (i: nat) ensures i < ENTRIES { v % 0x200 }

  /** Below MAXVA the three indices are in range and determine the page. */
  lemma SplitInjective(v: nat, u: nat)
    requires v < MAXVPN && u < MAXVPN
    ensures A(v) < ENTRIES / 2 && v == (A(v) * 0x200 + B(v)) * 0x200 + C(v)
    ensures A(v) == A(u) && B(v) == B(u) && C(v) == C(u) ==> v == u
  {
    assert v / 0x200 / 0x200 == v / 0x40000 && u / 0x200 / 0x200 == u / 0x40000;
  }

  /** The page with the given indices. */
  function Vpn(a: nat, b: nat, c: nat): (v: nat) { (a * 0x200 + b) * 0x200 + c }

  lemma SplitOfVpn(a: nat, b: nat, c: nat)
    requires a < ENTRIES / 2 && b < ENTRIES && c < ENTRIES
    ensures var v := Vpn(a, b, c); v < MAXVPN && A(v) == a && B(v) == b && C(v) == c
  {
    var v := Vpn(a, b, c);
    assert v / 0x200 == a * 0x200 + b && v / 0x200 / 0x200 == a;
    assert v / 0x40000 == v / 0x200 / 0x200;
  }

  // ----- memory

  /** What a frame is used for in the page table rooted at r. */
  datatype Owner = Root | Mid(r: nat, a: nat) | Low(r: nat, a: nat, b: nat) | Page(r: nat, v: nat)

  /** `tabs` holds the page-table pages, `data` the contents of the other frames. */
  datatype Mem = Mem(tabs: map<nat, Table>, data: map<nat, nat>, free: seq<nat>, own: map<nat, Owner>)

  /** The frame entry k of page-table page t points to, -1 if none. */
  function Child(m: Mem, t: int, k: nat): (f: int)
    requires k < ENTRIES
    ensures f >= -1
  {
    if t >= 0 && t in m.tabs && Valid(m.tabs[t][k]) then FrameOf(m.tabs[t][k]) else -1
  }

  function MidOf(m: Mem, r: nat, a: nat): (f: int)
    requires a < ENTRIES
    ensures f >= -1
  {
    Child(m, r, a)
  }

  function LowOf(m: Mem, r: nat, a: nat, b: nat): (f: int)
    requires a < ENTRIES && b < ENTRIES
    ensures f >= -1
  {
    Child(m, MidOf(m, r, a), b)
  }

  /** The entry at (a, b, c) of the tree at r; 0 if there is none or it is not valid. */
  function Entry(m: Mem, r: nat, a: nat, b: nat, c: nat): (w: nat)
    requires a < ENTRIES && b < ENTRIES && c < ENTRIES
  {
    var t := LowOf(m, r, a, b);
    if t >= 0 && t in m.tabs && Valid(m.tabs[t][c]) then m.tabs[t][c] else 0
  }

  /** The page table as a map: the leaf entry that translates page v, 0 if v is not mapped. */
  function Lookup(m: Mem, r: nat, v: nat): (w: nat)
    ensures w == 0 || Valid(w)
  {
    if A(v) < ENTRIES then Entry(m, r, A(v), B(v), C(v)) else 0
  }

  predicate IsRoot(m: Mem, r: nat) { r in m.own && m.own[r].Root? }

  /** Page v of the page table at r now translates to w; every other page of every page table is as before. */
  ghost predicate Updated(m: Mem, n: Mem, r: nat, v: nat, w: nat)
  {
    && (forall q :: IsRoot(m, q) ==> IsRoot(n, q))
    && forall q, u {:trigger Lookup(n, q, u)} :: IsRoot(m, q) && 0 <= u < MAXVPN ==>
         Lookup(n, q, u) == if q == r && u == v then w else Lookup(m, q, u)
  }

  /** No page of any page table translates differently. */
  ghost predicate SameMaps(m: Mem, n: Mem)
  {
    && (forall q :: IsRoot(m, q) ==> IsRoot(n, q))
    && forall q, u {:trigger Lookup(n, q, u)} :: IsRoot(m, q) && 0 <= u < MAXVPN ==> Lookup(n, q, u) == Lookup(m, q, u)
  }

  // ----- the invariant

  /** A page-table page points only to the pages the tree has at the next level, and its owner's parent points
      back to it. */
  ghost predicate TabOk(m: Mem, t: nat)
    requires t in m.tabs
  {
    && t in m.own
    && match m.own[t]
       case Root =>
         forall k {:trigger m.tabs[t][k]} :: 0 <= k < ENTRIES && Valid(m.tabs[t][k]) ==>
           k < ENTRIES / 2 && !IsLeaf(m.tabs[t][k]) && FrameOf(m.tabs[t][k]) in m.tabs &&
                 FrameOf(m.tabs[t][k]) in m.own && m.own[FrameOf(m.tabs[t][k])] == Mid(t, k)
       case Mid(r, a) =>
         && a < ENTRIES && r in m.tabs && IsRoot(m, r) && MidOf(m, r, a) == t
         && forall k {:trigger m.tabs[t][k]} :: 0 <= k < ENTRIES && Valid(m.tabs[t][k]) ==>
              !IsLeaf(m.tabs[t][k]) && FrameOf(m.tabs[t][k]) in m.tabs && FrameOf(m.tabs[t][k]) in m.own &&
                    m.own[FrameOf(m.tabs[t][k])] == Low(r, a, k)
       case Low(r, a, b) =>
         && a < ENTRIES && b < ENTRIES && r in m.tabs && IsRoot(m, r) && LowOf(m, r, a, b) == t
         && forall k {:trigger m.tabs[t][k]} :: 0 <= k < ENTRIES && Valid(m.tabs[t][k]) ==> IsLeaf(m.tabs[t][k])
       case Page(_, _) => false
  }

  /** A data frame owned by a page table is mapped there at its page. */
  ghost predicate PageOk(m: Mem, f: nat)
    requires f in m.own && m.own[f].Page?
  {
    && f !in m.tabs && f in m.data && IsRoot(m, m.own[f].r) && m.own[f].v < MAXVPN
    && Valid(Lookup(m, m.own[f].r, m.own[f].v)) && FrameOf(Lookup(m, m.own[f].r, m.own[f].v)) == f
  }

  ghost predicate FreeOk(m: Mem)
  {
    && (forall i :: 0 <= i < |m.free| ==> m.free[i] !in m.own && m.free[i] !in m.tabs)
    && (forall i, j :: 0 <= i < j < |m.free| ==> m.free[i] != m.free[j])
  }

  ghost predicate Inv(m: Mem)
  {
    && (forall t :: t in m.tabs ==> TabOk(m, t))
    && (forall f :: f in m.own && m.own[f].Page? ==> PageOk(m, f))
    && (forall f :: f in m.own && !m.own[f].Page? ==> f in m.tabs)
    && FreeOk(m)
  }

  /** The frames that are free or in use by page tables. */
  ghost function Frames(m: Mem): (r: set<nat>)
  {
    m.own.Keys + set f | f in m.free
  }

  /** Frame f is in neither: allocated, and not yet part of a page table. */
  ghost predicate Loose(m: Mem, f: nat)
  {
    f !in m.own && f !in m.tabs && f !in m.free
  }
}
