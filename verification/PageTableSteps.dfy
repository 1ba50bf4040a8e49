/** The changes kernel/vm.c makes to page tables, and what each does to the map they denote. */
module PageTableSteps {
  import opened PageTableState

  lemma InvTab(m: Mem, t: nat)
    requires Inv(m) && (t in m.tabs || (t in m.own && !m.own[t].Page?))
    ensures t in m.tabs && t in m.own && TabOk(m, t)
  {
    hide PageOk, FreeOk;
  }

  lemma InvPage(m: Mem, f: nat)
    requires Inv(m) && f in m.own && m.own[f].Page?
    ensures PageOk(m, f)
  {
    hide TabOk, PageOk, FreeOk;
  }

  // ----- a new page-table page

  /** The owner of the page entry k of page-table page t points to. */
  function ChildOwner(o: Owner, t: nat, k: nat): (r: Owner)
  {
    if o.Root? then Mid(t, k) else if o.Mid? then Low(o.r, o.a, k) else Root
  }

  /** walk's allocation: frame f, zeroed, becomes the page entry k of t points to. */
  function Link(m: Mem, t: nat, k: nat, f: nat): (n: Mem)
    requires t in m.tabs && t in m.own && k < ENTRIES
  {
    m.(tabs := m.tabs[t := m.tabs[t][k := Encode(f, 1)]][f := ZeroTable()],
          own := m.own[f := ChildOwner(m.own[t], t, k)])
  }

  ghost predicate CanLink(m: Mem, t: nat, k: nat, f: nat)
  {
    && t in m.tabs && t in m.own && k < ENTRIES && !Valid(m.tabs[t][k]) && Loose(m, f)
    && ((m.own[t].Root? && k < ENTRIES / 2) || m.own[t].Mid?)
  }

  lemma LinkChild(m: Mem, t: nat, k: nat, f: nat, x: int, j: nat)
    requires CanLink(m, t, k, f) && j < ENTRIES
    ensures Child(Link(m, t, k, f), x, j) == if x == t && j == k then f else if x == f then -1 else Child(m, x, j)
  {
    EncodeParts(f, 1);
  }

  /** No page-table page points to a loose frame. */
  lemma NotPointedAt(m: Mem, f: nat, x: int, j: nat)
    requires Inv(m) && Loose(m, f) && j < ENTRIES && x >= 0 && x in m.own && !m.own[x].Low?
    ensures Child(m, x, j) != f
  {
    assert x in m.tabs ==> TabOk(m, x);
  }

  lemma LinkLow(m: Mem, t: nat, k: nat, f: nat, r: nat, a: nat, b: nat)
    requires Inv(m) && CanLink(m, t, k, f) && a < ENTRIES && b < ENTRIES && IsRoot(m, r)
    ensures var n := Link(m, t, k, f);
            && MidOf(n, r, a) == (if r == t && a == k then f else MidOf(m, r, a))
            && LowOf(n, r, a, b) == (if MidOf(m, r, a) == t && b == k then f else LowOf(m, r, a, b))
  {
    LinkChild(m, t, k, f, r, a);
    LinkChild(m, t, k, f, MidOf(Link(m, t, k, f), r, a), b);
    NotPointedAt(m, f, r, a);
  }

  /** A new page-table page is empty: no translation of any page table changes. */
  lemma LinkEntry(m: Mem, t: nat, k: nat, f: nat, r: nat, a: nat, b: nat, c: nat)
    requires Inv(m) && CanLink(m, t, k, f) && a < ENTRIES && b < ENTRIES && c < ENTRIES && IsRoot(m, r)
    ensures Entry(Link(m, t, k, f), r, a, b, c) == Entry(m, r, a, b, c)
  {
    LinkLow(m, t, k, f, r, a, b);
    var x := LowOf(m, r, a, b);
    if MidOf(m, r, a) == t && b == k {
      assert Child(m, t, k) == -1;
    } else if x >= 0 {
      LowOwner(m, r, a, b);
    }
  }

  /** The pages on the path to a leaf are owned as such. */
  lemma LowOwner(m: Mem, r: nat, a: nat, b: nat)
    requires Inv(m) && a < ENTRIES && b < ENTRIES && IsRoot(m, r)
    ensures var x := MidOf(m, r, a); x >= 0 ==> x in m.tabs && x in m.own && m.own[x] == Mid(r, a)
    ensures var y := LowOf(m, r, a, b); y >= 0 ==> y in m.tabs && y in m.own && m.own[y] == Low(r, a, b)
  {
    assert r in m.tabs && TabOk(m, r);
    var x := MidOf(m, r, a);
    assert x >= 0 ==> TabOk(m, x);
  }

  lemma LinkWord(f: nat)
    ensures var w := Encode(f, 1); Valid(w) && !IsLeaf(w) && FrameOf(w) == f && !Valid(0)
  {
    EncodeParts(f, 1);
  }

  lemma LinkTabNew(m: Mem, t: nat, k: nat, f: nat)
    requires Inv(m) && CanLink(m, t, k, f)
    ensures TabOk(Link(m, t, k, f), f)
  {
    hide Valid, IsLeaf, FrameOf, Encode;
    LinkWord(f);
    var n := Link(m, t, k, f);
    assert TabOk(m, t);
    assert n.tabs[f] == ZeroTable();
    if m.own[t].Root? {
      assert MidOf(n, t, k) == f;
    } else {
      LinkLow(m, t, k, f, m.own[t].r, m.own[t].a, k);
    }
  }

  lemma LinkTab(m: Mem, t: nat, k: nat, f: nat, x: nat)
    requires Inv(m) && CanLink(m, t, k, f) && x in m.tabs
    ensures TabOk(Link(m, t, k, f), x)
  {
    hide Inv, Valid, IsLeaf, FrameOf, Encode, Child;
    InvTab(m, x);
    NoChildYet(m, t, k);
    if m.own[x].Root? {
      LinkTabRoot(m, t, k, f, x);
    } else if m.own[x].Mid? {
      LinkLow(m, t, k, f, m.own[x].r, m.own[x].a, 0);
      LinkTabMid(m, t, k, f, x);
    } else {
      LinkLow(m, t, k, f, m.own[x].r, m.own[x].a, m.own[x].b);
    }
  }

  lemma NoChildYet(m: Mem, t: nat, k: nat)
    requires t in m.tabs && k < ENTRIES && !Valid(m.tabs[t][k])
    ensures Child(m, t, k) == -1
  {
  }

  lemma LinkTabRoot(m: Mem, t: nat, k: nat, f: nat, x: nat)
    requires CanLink(m, t, k, f) && x in m.tabs && TabOk(m, x) && m.own[x].Root?
    ensures TabOk(Link(m, t, k, f), x)
  {
    hide Valid, IsLeaf, FrameOf, Encode, Child;
    LinkWord(f);
  }

  lemma LinkTabMid(m: Mem, t: nat, k: nat, f: nat, x: nat)
    requires CanLink(m, t, k, f) && x in m.tabs && TabOk(m, x) && m.own[x].Mid?
    requires MidOf(Link(m, t, k, f), m.own[x].r, m.own[x].a) == x
    ensures TabOk(Link(m, t, k, f), x)
  {
    hide Valid, IsLeaf, FrameOf, Encode, Child, MidOf;
    LinkWord(f);
  }

  lemma LinkSame(m: Mem, t: nat, k: nat, f: nat)
    requires Inv(m) && CanLink(m, t, k, f)
    ensures SameMaps(m, Link(m, t, k, f))
  {
    hide TabOk, Entry;
    var n := Link(m, t, k, f);
    forall q, u {:trigger Lookup(n, q, u)} | IsRoot(m, q) && 0 <= u < MAXVPN
      ensures Lookup(n, q, u) == Lookup(m, q, u)
    {
      SplitInjective(u, u);
      LinkEntry(m, t, k, f, q, A(u), B(u), C(u));
    }
  }

  lemma LinkInv(m: Mem, t: nat, k: nat, f: nat)
    requires Inv(m) && CanLink(m, t, k, f)
    ensures var n := Link(m, t, k, f); Inv(n) && Frames(n) == Frames(m) + {f} && SameMaps(m, n)
    ensures forall x :: Loose(m, x) && x != f ==> Loose(Link(m, t, k, f), x)
  {
    hide TabOk, Lookup, Valid, FrameOf;
    var n := Link(m, t, k, f);
    LinkSame(m, t, k, f);
    forall x | x in n.tabs ensures TabOk(n, x) {
      if x == f {
        LinkTabNew(m, t, k, f);
      } else {
        LinkTab(m, t, k, f, x);
      }
    }
    forall x | x in n.own && n.own[x].Page? ensures PageOk(n, x) {
      assert PageOk(m, x);
    }
  }

  // ----- leaf entries

  function SetLeaf(m: Mem, t: nat, c: nat, w: nat): (n: Mem)
    requires t in m.tabs && c < ENTRIES
  {
    m.(tabs := m.tabs[t := m.tabs[t][c := w]])
  }

  /** Page-table page t holds the leaf entry of page v. */
  ghost predicate Holds(m: Mem, r: nat, v: nat, t: nat)
  {
    v < MAXVPN && IsRoot(m, r) && t in m.tabs && t in m.own && m.own[t] == Low(r, A(v), B(v)) && A(v) < ENTRIES
  }

  lemma SetLeafLow(m: Mem, r: nat, v: nat, t: nat, w: nat, q: nat, a: nat, b: nat)
    requires Inv(m) && Holds(m, r, v, t) && IsRoot(m, q) && a < ENTRIES && b < ENTRIES
    ensures var n := SetLeaf(m, t, C(v), w); MidOf(n, q, a) == MidOf(m, q, a) && LowOf(n, q, a, b) == LowOf(m, q, a, b)
  {
    LowOwner(m, q, a, b);
  }

  /** One entry changes. */
  lemma SetLeafLookup(m: Mem, r: nat, v: nat, t: nat, w: nat, q: nat, u: nat)
    requires Inv(m) && Holds(m, r, v, t) && IsRoot(m, q) && u < MAXVPN
    ensures Lookup(SetLeaf(m, t, C(v), w), q, u) ==
              if q == r && u == v then (if Valid(w) then w else 0) else Lookup(m, q, u)
  {
    SplitInjective(u, v);
    SetLeafLow(m, r, v, t, w, q, A(u), B(u));
    LowOwner(m, q, A(u), B(u));
    assert TabOk(m, t);
    hide Valid, A, B, C;
  }

  lemma SetLeafTab(m: Mem, r: nat, v: nat, t: nat, w: nat, x: nat)
    requires Inv(m) && Holds(m, r, v, t) && x in m.tabs && (Valid(w) ==> IsLeaf(w))
    ensures TabOk(SetLeaf(m, t, C(v), w), x)
  {
    hide Inv, Valid, IsLeaf, FrameOf, A, B, C, Child;
    InvTab(m, x);
    if m.own[x].Mid? {
      SetLeafLow(m, r, v, t, w, m.own[x].r, m.own[x].a, 0);
    } else if m.own[x].Low? {
      SetLeafLow(m, r, v, t, w, m.own[x].r, m.own[x].a, m.own[x].b);
    }
  }

  lemma TabsKeepLookup(m: Mem, n: Mem, q: nat, u: nat)
    requires n.tabs == m.tabs
    ensures Lookup(n, q, u) == Lookup(m, q, u)
  {
  }

  lemma SetLeafUpdated(m: Mem, r: nat, v: nat, t: nat, w: nat, n: Mem)
    requires Inv(m) && Holds(m, r, v, t) && (Valid(w) || w == 0) && n.tabs == SetLeaf(m, t, C(v), w).tabs
    requires forall q :: IsRoot(m, q) ==> IsRoot(n, q)
    ensures Updated(m, n, r, v, w)
  {
    forall q, u {:trigger Lookup(n, q, u)} | IsRoot(m, q) && 0 <= u < MAXVPN
      ensures Lookup(n, q, u) == if q == r && u == v then w else Lookup(m, q, u)
    {
      SetLeafLookup(m, r, v, t, w, q, u);
      TabsKeepLookup(SetLeaf(m, t, C(v), w), n, q, u);
    }
  }

  /** mappages' store: page v translates to w; `mine` says that the frame is to belong to the page table. */
  function MapLeaf(m: Mem, r: nat, v: nat, t: nat, w: nat, mine: bool): (n: Mem)
    requires t in m.tabs
  {
    var n := SetLeaf(m, t, C(v), w);
    if mine then n.(own := m.own[FrameOf(w) := Page(r, v)]) else n
  }

  ghost predicate CanMap(m: Mem, r: nat, v: nat, t: nat, w: nat, mine: bool)
  {
    Holds(m, r, v, t) && !Valid(m.tabs[t][C(v)]) && Valid(w) && IsLeaf(w) &&
          (mine ==> Loose(m, FrameOf(w)) && FrameOf(w) in m.data)
  }

  /** A change of ownership of a frame that is no page-table page. */
  lemma OwnKeepsTab(m: Mem, own: map<nat, Owner>, f: nat, x: nat)
    requires x in m.tabs && TabOk(m, x) && f !in m.tabs
    requires (forall y :: y != f && y in m.own ==> y in own && own[y] == m.own[y])
    ensures TabOk(m.(own := own), x)
  {
    var n := m.(own := own);
    assert forall y, k :: 0 <= k < ENTRIES ==> Child(n, y, k) == Child(m, y, k);
    hide Valid, IsLeaf, FrameOf;
  }

  lemma MapLeafTab(m: Mem, r: nat, v: nat, t: nat, w: nat, mine: bool, x: nat)
    requires Inv(m) && CanMap(m, r, v, t, w, mine) && x in m.tabs
    ensures TabOk(MapLeaf(m, r, v, t, w, mine), x)
  {
    SetLeafTab(m, r, v, t, w, x);
    hide TabOk, Inv;
    if mine {
      OwnKeepsTab(SetLeaf(m, t, C(v), w), m.own[FrameOf(w) := Page(r, v)], FrameOf(w), x);
    }
  }

  /** The entry of a page below MAXVA as its page-table page holds it. */
  lemma HeldLookup(m: Mem, r: nat, v: nat, t: nat)
    requires Inv(m) && Holds(m, r, v, t)
    ensures Lookup(m, r, v) == if Valid(m.tabs[t][C(v)]) then m.tabs[t][C(v)] else 0
  {
    assert TabOk(m, t);
  }

  lemma MapLeafPage(m: Mem, r: nat, v: nat, t: nat, w: nat, mine: bool, x: nat)
    requires Inv(m) && CanMap(m, r, v, t, w, mine) && x in MapLeaf(m, r, v, t, w, mine).own
    requires MapLeaf(m, r, v, t, w, mine).own[x].Page?
    ensures PageOk(MapLeaf(m, r, v, t, w, mine), x)
  {
    hide Inv, TabOk, Lookup, Valid, FrameOf, IsLeaf, A, B, C;
    NotValidZero();
    HeldLookup(m, r, v, t);
    var n := MapLeaf(m, r, v, t, w, mine);
    SetLeafUpdated(m, r, v, t, w, n);
    if mine && x == FrameOf(w) {
      assert Lookup(n, r, v) == w;
    } else {
      InvPage(m, x);
      assert Lookup(n, m.own[x].r, m.own[x].v) == Lookup(m, m.own[x].r, m.own[x].v);
    }
  }

  lemma NotValidZero()
    ensures !Valid(0)
  {
  }

  lemma MapLeafInv(m: Mem, r: nat, v: nat, t: nat, w: nat, mine: bool)
    requires Inv(m) && CanMap(m, r, v, t, w, mine)
    ensures var n := MapLeaf(m, r, v, t, w, mine);
            Inv(n) && Updated(m, n, r, v, w) && Frames(n) == Frames(m) + (if mine then {FrameOf(w)} else {})
  {
    hide TabOk, PageOk, Valid, IsLeaf, FrameOf, A, B, C, Lookup;
    var n := MapLeaf(m, r, v, t, w, mine);
    forall x | x in n.tabs ensures TabOk(n, x) {
      MapLeafTab(m, r, v, t, w, mine, x);
    }
    SetLeafUpdated(m, r, v, t, w, n);
    forall x | x in n.own && n.own[x].Page? ensures PageOk(n, x) {
      MapLeafPage(m, r, v, t, w, mine, x);
    }
  }

  /** uvmunmap's store, after kfree of the frame if `free`. */
  function UnmapLeaf(m: Mem, r: nat, v: nat, t: nat, free: bool): (n: Mem)
    requires t in m.tabs
  {
    var f := FrameOf(m.tabs[t][C(v)]);
    var n := SetLeaf(m, t, C(v), 0);
    if free then n.(own := m.own - {f}, free := [f] + m.free, data := m.data[f := 1]) else n
  }

  /** Page v is mapped; its frame is freed exactly if it belongs to the page table. */
  ghost predicate CanUnmap(m: Mem, r: nat, v: nat, t: nat, free: bool)
  {
    && Holds(m, r, v, t) && Valid(m.tabs[t][C(v)])
    && var f := FrameOf(m.tabs[t][C(v)]); (free <==> f in m.own && m.own[f] == Page(r, v))
  }

  lemma UnmapLeafTab(m: Mem, r: nat, v: nat, t: nat, free: bool, x: nat)
    requires Inv(m) && CanUnmap(m, r, v, t, free) && x in m.tabs
    ensures TabOk(UnmapLeaf(m, r, v, t, free), x)
  {
    NoTable(m, r, v, t, free);
    hide TabOk, Inv, Valid, IsLeaf, FrameOf, A, B, C;
    SetLeafTab(m, r, v, t, 0, x);
    var f := FrameOf(m.tabs[t][C(v)]);
    var s := SetLeaf(m, t, C(v), 0);
    if free {
      OwnKeepsTab(s, m.own - {f}, f, x);
      DataKeepsTab(s.(own := m.own - {f}), UnmapLeaf(m, r, v, t, free), x);
    }
  }

  lemma DataKeepsTab(m: Mem, n: Mem, x: nat)
    requires x in m.tabs && TabOk(m, x) && n == m.(free := n.free, data := n.data)
    ensures TabOk(n, x)
  {
    assert forall y, k :: 0 <= k < ENTRIES ==> Child(n, y, k) == Child(m, y, k);
    hide Valid, IsLeaf, FrameOf;
  }

  lemma OtherPage(m: Mem, r: nat, v: nat, t: nat, free: bool, x: nat)
    requires Inv(m) && CanUnmap(m, r, v, t, free) && x in UnmapLeaf(m, r, v, t, free).own && m.own[x].Page?
    ensures !(m.own[x].r == r && m.own[x].v == v)
  {
    hide TabOk, Lookup, FrameOf, A, B, C;
    HeldLookup(m, r, v, t);
    assert PageOk(m, x);
  }

  lemma UnmapLeafPage(m: Mem, r: nat, v: nat, t: nat, free: bool, x: nat)
    requires Inv(m) && CanUnmap(m, r, v, t, free) && x in UnmapLeaf(m, r, v, t, free).own && m.own[x].Page?
    ensures PageOk(UnmapLeaf(m, r, v, t, free), x)
  {
    hide Inv, TabOk, Lookup, Valid, FrameOf, IsLeaf, A, B, C;
    NoTable(m, r, v, t, free);
    var n := UnmapLeaf(m, r, v, t, free);
    SetLeafUpdated(m, r, v, t, 0, n);
    InvPage(m, x);
    OtherPage(m, r, v, t, free, x);
    assert Lookup(n, m.own[x].r, m.own[x].v) == Lookup(m, m.own[x].r, m.own[x].v);
  }

  lemma NoTable(m: Mem, r: nat, v: nat, t: nat, free: bool)
    requires Inv(m) && CanUnmap(m, r, v, t, free)
    ensures !Valid(0) && (free ==> FrameOf(m.tabs[t][C(v)]) !in m.tabs && FrameOf(m.tabs[t][C(v)]) !in m.free)
  {
    assert free ==> PageOk(m, FrameOf(m.tabs[t][C(v)]));
  }

  lemma UnmapLeafInv(m: Mem, r: nat, v: nat, t: nat, free: bool)
    requires Inv(m) && CanUnmap(m, r, v, t, free)
    ensures var n := UnmapLeaf(m, r, v, t, free); Inv(n) && Updated(m, n, r, v, 0) && Frames(n) == Frames(m)
  {
    hide TabOk, PageOk, Valid, IsLeaf, FrameOf, A, B, C, Lookup, Updated;
    var n := UnmapLeaf(m, r, v, t, free);
    NoTable(m, r, v, t, free);
    SetLeafUpdated(m, r, v, t, 0, n);
    forall x | x in n.tabs ensures TabOk(n, x) {
      UnmapLeafTab(m, r, v, t, free, x);
    }
    forall x | x in n.own && n.own[x].Page? ensures PageOk(n, x) {
      UnmapLeafPage(m, r, v, t, free, x);
    }
  }

  // ----- page-table pages go

  /** freewalk: the empty page entry k of t points to is freed and the entry cleared. */
  function Unlink(m: Mem, t: nat, k: nat): (n: Mem)
    requires t in m.tabs && k < ENTRIES
  {
    var f := FrameOf(m.tabs[t][k]);
    m.(tabs := m.tabs[t := m.tabs[t][k := 0]] - {f}, own := m.own - {f}, free := [f] + m.free, data := m.data[f := 1])
  }

  predicate Empty(t: Table) { forall k :: 0 <= k < ENTRIES ==> !Valid(t[k]) }

  ghost predicate CanUnlink(m: Mem, t: nat, k: nat)
  {
    && t in m.tabs && t in m.own && (m.own[t].Root? || m.own[t].Mid?) && k < ENTRIES && Valid(m.tabs[t][k])
    && var f := FrameOf(m.tabs[t][k]); f in m.tabs && Empty(m.tabs[f])
  }

  lemma UnlinkFacts(m: Mem, t: nat, k: nat)
    requires Inv(m) && CanUnlink(m, t, k)
    ensures var f := FrameOf(m.tabs[t][k]); f != t && f in m.own && m.own[f] == ChildOwner(m.own[t], t, k)
    ensures !Valid(0)
  {
    assert TabOk(m, t);
  }

  lemma UnlinkLow(m: Mem, t: nat, k: nat, r: nat, a: nat, b: nat)
    requires Inv(m) && CanUnlink(m, t, k) && a < ENTRIES && b < ENTRIES && IsRoot(m, r)
    ensures var n := Unlink(m, t, k);
            && MidOf(n, r, a) == (if r == t && a == k then -1 else MidOf(m, r, a))
            && LowOf(n, r, a, b) == (if MidOf(m, r, a) == t && b == k then -1 else LowOf(m, r, a, b))
  {
    hide Inv, TabOk;
    UnlinkFacts(m, t, k);
    LowOwner(m, r, a, b);
  }

  lemma UnlinkLookup(m: Mem, t: nat, k: nat, r: nat, v: nat)
    requires Inv(m) && CanUnlink(m, t, k) && IsRoot(m, r) && v < MAXVPN
    ensures Lookup(Unlink(m, t, k), r, v) == Lookup(m, r, v)
  {
    SplitInjective(v, v);
    UnlinkFacts(m, t, k);
    UnlinkLow(m, t, k, r, A(v), B(v));
    LowOwner(m, r, A(v), B(v));
  }

  lemma UnlinkTab(m: Mem, t: nat, k: nat, x: nat)
    requires Inv(m) && CanUnlink(m, t, k) && x in Unlink(m, t, k).tabs
    ensures TabOk(Unlink(m, t, k), x)
  {
    hide Inv, Valid, IsLeaf, FrameOf, Empty, Child;
    UnlinkFacts(m, t, k);
    InvTab(m, x);
    InvTab(m, t);
    if m.own[x].Root? {
      UnlinkTabRoot(m, t, k, x);
    } else if m.own[x].Mid? {
      UnlinkLow(m, t, k, m.own[x].r, m.own[x].a, 0);
      UnlinkTabMid(m, t, k, x);
    } else {
      UnlinkLow(m, t, k, m.own[x].r, m.own[x].a, m.own[x].b);
      LowOwner(m, m.own[x].r, m.own[x].a, m.own[x].b);
      UnlinkTabLow(m, t, k, x);
    }
  }

  lemma UnlinkTabRoot(m: Mem, t: nat, k: nat, x: nat)
    requires CanUnlink(m, t, k) && x in Unlink(m, t, k).tabs && TabOk(m, x) && TabOk(m, t) && !Valid(0)
    requires m.own[x].Root?
    requires var f := FrameOf(m.tabs[t][k]); f != t && f in m.own && m.own[f] == ChildOwner(m.own[t], t, k)
    ensures TabOk(Unlink(m, t, k), x)
  {
    hide Valid, IsLeaf, FrameOf, Empty, Child;
  }

  lemma UnlinkTabMid(m: Mem, t: nat, k: nat, x: nat)
    requires CanUnlink(m, t, k) && x in Unlink(m, t, k).tabs && TabOk(m, x) && TabOk(m, t) && !Valid(0)
    requires m.own[x].Mid?
    requires var f := FrameOf(m.tabs[t][k]); f != t && f in m.own && m.own[f] == ChildOwner(m.own[t], t, k)
    requires var n := Unlink(m, t, k);
             MidOf(n, m.own[x].r, m.own[x].a) == if m.own[x].r == t && m.own[x].a == k then -1 else x
    ensures TabOk(Unlink(m, t, k), x)
  {
    hide Valid, IsLeaf, FrameOf, Empty;
  }

  lemma UnlinkTabLow(m: Mem, t: nat, k: nat, x: nat)
    requires CanUnlink(m, t, k) && x in Unlink(m, t, k).tabs && TabOk(m, x) && TabOk(m, t) && m.own[x].Low?
    requires var f := FrameOf(m.tabs[t][k]); f != t && f in m.own && m.own[f] == ChildOwner(m.own[t], t, k)
    requires var n, o := Unlink(m, t, k), m.own[x];
             LowOf(n, o.r, o.a, o.b) == if MidOf(m, o.r, o.a) == t && o.b == k then -1 else x
    requires MidOf(m, m.own[x].r, m.own[x].a) >= 0 ==> MidOf(m, m.own[x].r, m.own[x].a) in m.own
    requires MidOf(m, m.own[x].r, m.own[x].a) == t ==> m.own[t] == Mid(m.own[x].r, m.own[x].a)
    ensures TabOk(Unlink(m, t, k), x)
  {
    hide Valid, IsLeaf, FrameOf, Empty;
  }

  lemma UnlinkSame(m: Mem, t: nat, k: nat)
    requires Inv(m) && CanUnlink(m, t, k)
    ensures SameMaps(m, Unlink(m, t, k))
  {
    var n := Unlink(m, t, k);
    UnlinkFacts(m, t, k);
    hide TabOk, Lookup, FrameOf, Valid;
    forall q, u {:trigger Lookup(n, q, u)} | IsRoot(m, q) && 0 <= u < MAXVPN
      ensures Lookup(n, q, u) == Lookup(m, q, u)
    {
      UnlinkLookup(m, t, k, q, u);
    }
  }

  lemma UnlinkPage(m: Mem, t: nat, k: nat, x: nat)
    requires Inv(m) && CanUnlink(m, t, k) && x in m.own && m.own[x].Page?
    ensures x in Unlink(m, t, k).own && PageOk(Unlink(m, t, k), x)
  {
    hide Lookup, TabOk, FrameOf, Valid, Empty;
    UnlinkFacts(m, t, k);
    UnlinkSame(m, t, k);
    assert PageOk(m, x);
    assert Lookup(Unlink(m, t, k), m.own[x].r, m.own[x].v) == Lookup(m, m.own[x].r, m.own[x].v);
  }

  lemma UnlinkInv(m: Mem, t: nat, k: nat)
    requires Inv(m) && CanUnlink(m, t, k)
    ensures var n := Unlink(m, t, k); Inv(n) && Frames(n) == Frames(m) && SameMaps(m, n)
  {
    hide TabOk, PageOk, FrameOf, Valid, SameMaps;
    var n := Unlink(m, t, k);
    UnlinkFacts(m, t, k);
    UnlinkSame(m, t, k);
    forall x | x in n.tabs ensures TabOk(n, x) {
      UnlinkTab(m, t, k, x);
    }
    forall x | x in n.own && n.own[x].Page? ensures PageOk(n, x) {
      UnlinkPage(m, t, k, x);
    }
  }

  /** The end of freewalk: the empty root is freed. */
  function DropRoot(m: Mem, r: nat): (n: Mem)
  {
    m.(tabs := m.tabs - {r}, own := m.own - {r}, free := [r] + m.free, data := m.data[r := 1])
  }

  /** An empty page table has no pages below it. */
  lemma NothingBelow(m: Mem, r: nat, f: nat)
    requires Inv(m) && IsRoot(m, r) && Empty(m.tabs[r]) && f in m.own && f != r
    ensures m.own[f].Root? || m.own[f].r != r
  {
    hide Inv, Lookup;
    if m.own[f].Page? {
      InvPage(m, f);
      EmptyLookup(m, r, m.own[f].v);
    } else {
      InvTab(m, f);
    }
  }

  lemma EmptyLookup(m: Mem, r: nat, v: nat)
    requires Inv(m) && IsRoot(m, r) && Empty(m.tabs[r]) && v < MAXVPN
    ensures !Valid(Lookup(m, r, v))
  {
    hide Inv, TabOk;
    SplitInjective(v, v);
    InvTab(m, r);
    assert MidOf(m, r, A(v)) == -1;
  }

  lemma DropRootChild(m: Mem, r: nat, x: int, k: nat)
    requires k < ENTRIES && x != r
    ensures Child(DropRoot(m, r), x, k) == Child(m, x, k)
  {
  }

  lemma DropRootLow(m: Mem, r: nat, q: nat, a: nat, b: nat)
    requires Inv(m) && IsRoot(m, r) && IsRoot(m, q) && q != r && a < ENTRIES && b < ENTRIES
    ensures MidOf(DropRoot(m, r), q, a) == MidOf(m, q, a) && LowOf(DropRoot(m, r), q, a, b) == LowOf(m, q, a, b)
    ensures LowOf(m, q, a, b) != r
  {
    LowOwner(m, q, a, b);
    DropRootChild(m, r, q, a);
    DropRootChild(m, r, MidOf(m, q, a), b);
  }

  lemma DropRootTab(m: Mem, r: nat, x: nat)
    requires Inv(m) && IsRoot(m, r) && Empty(m.tabs[r]) && x in m.tabs && x != r
    ensures TabOk(DropRoot(m, r), x)
  {
    assert TabOk(m, x);
    NothingBelow(m, r, x);
    if m.own[x].Mid? {
      DropRootLow(m, r, m.own[x].r, m.own[x].a, 0);
    } else if m.own[x].Low? {
      DropRootLow(m, r, m.own[x].r, m.own[x].a, m.own[x].b);
    }
  }

  lemma DropRootLookup(m: Mem, r: nat, q: nat, u: nat)
    requires Inv(m) && IsRoot(m, r) && IsRoot(m, q) && q != r && u < MAXVPN
    ensures Lookup(DropRoot(m, r), q, u) == Lookup(m, q, u)
  {
    SplitInjective(u, u);
    DropRootLow(m, r, q, A(u), B(u));
  }

  lemma DropRootSame(m: Mem, r: nat)
    requires Inv(m) && IsRoot(m, r)
    ensures var n := DropRoot(m, r);
            forall q, u {:trigger Lookup(n, q, u)} :: IsRoot(m, q) && q != r && 0 <= u < MAXVPN ==>
                  Lookup(n, q, u) == Lookup(m, q, u)
  {
    hide Lookup, Inv;
    var n := DropRoot(m, r);
    forall q, u {:trigger Lookup(n, q, u)} | IsRoot(m, q) && q != r && 0 <= u < MAXVPN
      ensures Lookup(n, q, u) == Lookup(m, q, u)
    {
      DropRootLookup(m, r, q, u);
    }
  }

  lemma DropRootPage(m: Mem, r: nat, x: nat)
    requires Inv(m) && IsRoot(m, r) && Empty(m.tabs[r]) && x in m.own && m.own[x].Page?
    ensures PageOk(DropRoot(m, r), x)
  {
    hide Lookup, TabOk;
    DropRootSame(m, r);
    NothingBelow(m, r, x);
    assert PageOk(m, x);
  }

  lemma DropRootInv(m: Mem, r: nat)
    requires Inv(m) && IsRoot(m, r) && Empty(m.tabs[r])
    ensures var n := DropRoot(m, r);
            && Inv(n) && Frames(n) == Frames(m)
            && forall q, u {:trigger Lookup(n, q, u)} :: IsRoot(m, q) && q != r && 0 <= u < MAXVPN ==>
                  Lookup(n, q, u) == Lookup(m, q, u)
  {
    hide TabOk, Lookup, PageOk;
    var n := DropRoot(m, r);
    DropRootSame(m, r);
    forall x | x in n.tabs ensures TabOk(n, x) {
      DropRootTab(m, r, x);
    }
    forall x | x in n.own && n.own[x].Page? ensures PageOk(n, x) {
      DropRootPage(m, r, x);
    }
  }

  // ----- the frame allocator

  function PopFree(m: Mem): (n: Mem)
    requires m.free != []
  {
    m.(free := m.free[1..], data := m.data[m.free[0] := 5])
  }

  function PushFree(m: Mem, f: nat): (n: Mem)
  {
    m.(free := [f] + m.free, data := m.data[f := 1])
  }

  /** Nothing but the free list and the contents of unowned frames differ. */
  lemma FreeListInv(m: Mem, n: Mem)
    requires Inv(m) && n == m.(free := n.free, data := n.data) && FreeOk(n) && m.data.Keys <= n.data.Keys
    ensures Inv(n) && SameMaps(m, n)
  {
    forall x | x in n.tabs ensures TabOk(n, x) {
      assert TabOk(m, x);
      DataKeepsTab(m, n, x);
    }
    hide TabOk, Lookup;
    forall q, u {:trigger Lookup(n, q, u)} | IsRoot(m, q) && 0 <= u < MAXVPN
      ensures Lookup(n, q, u) == Lookup(m, q, u)
    {
      TabsKeepLookup(m, n, q, u);
    }
    forall x | x in n.own && n.own[x].Page? ensures PageOk(n, x) {
      assert PageOk(m, x);
    }
  }

  lemma PopFreeInv(m: Mem)
    requires Inv(m) && m.free != []
    ensures var n := PopFree(m); Inv(n) && SameMaps(m, n) && Frames(n) + {m.free[0]} == Frames(m) && Loose(n, m.free[0])
    ensures forall x :: Loose(m, x) ==> Loose(PopFree(m), x)
  {
    FreeListInv(m, PopFree(m));
    assert m.free == [m.free[0]] + m.free[1..];
  }

  lemma PushFreeInv(m: Mem, f: nat)
    requires Inv(m) && Loose(m, f)
    ensures var n := PushFree(m, f); Inv(n) && SameMaps(m, n) && Frames(n) == Frames(m) + {f}
  {
    FreeListInv(m, PushFree(m, f));
  }

  /** uvmcreate: a zeroed frame becomes the root of a new page table. */
  function AddRoot(m: Mem, f: nat): (n: Mem)
  {
    m.(tabs := m.tabs[f := ZeroTable()], own := m.own[f := Root])
  }

  lemma AddRootTab(m: Mem, f: nat, x: nat)
    requires Inv(m) && Loose(m, f) && x in AddRoot(m, f).tabs
    ensures TabOk(AddRoot(m, f), x)
  {
    var n := AddRoot(m, f);
    if x != f {
      assert TabOk(m, x);
      if m.own[x].Mid? {
        AddRootLow(m, f, m.own[x].r, m.own[x].a, 0);
      } else if m.own[x].Low? {
        AddRootLow(m, f, m.own[x].r, m.own[x].a, m.own[x].b);
      }
    }
  }

  lemma AddRootLow(m: Mem, f: nat, q: nat, a: nat, b: nat)
    requires Inv(m) && Loose(m, f) && IsRoot(m, q) && a < ENTRIES && b < ENTRIES
    ensures var n := AddRoot(m, f);
            MidOf(n, q, a) == MidOf(m, q, a) && LowOf(n, q, a, b) == LowOf(m, q, a, b) && LowOf(m, q, a, b) != f
  {
    LowOwner(m, q, a, b);
  }

  lemma AddRootSame(m: Mem, f: nat)
    requires Inv(m) && Loose(m, f)
    ensures SameMaps(m, AddRoot(m, f)) && forall u :: 0 <= u < MAXVPN ==> Lookup(AddRoot(m, f), f, u) == 0
  {
    hide TabOk, A, B, C;
    var n := AddRoot(m, f);
    forall q, u {:trigger Lookup(n, q, u)} | IsRoot(m, q) && 0 <= u < MAXVPN
      ensures Lookup(n, q, u) == Lookup(m, q, u)
    {
      SplitInjective(u, u);
      AddRootLow(m, f, q, A(u), B(u));
    }
  }

  lemma AddRootInv(m: Mem, f: nat)
    requires Inv(m) && Loose(m, f)
    ensures var n := AddRoot(m, f); Inv(n) && SameMaps(m, n) && Frames(n) == Frames(m) + {f}
    ensures forall u :: 0 <= u < MAXVPN ==> Lookup(AddRoot(m, f), f, u) == 0
  {
    hide TabOk, Lookup, Valid, FrameOf;
    var n := AddRoot(m, f);
    AddRootSame(m, f);
    forall x | x in n.tabs ensures TabOk(n, x) {
      AddRootTab(m, f, x);
    }
    forall x | x in n.own && n.own[x].Page? ensures PageOk(n, x) {
      assert PageOk(m, x);
    }
  }
}
