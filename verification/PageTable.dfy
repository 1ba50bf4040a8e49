/** walk, mappages, uvmunmap, uvmalloc, uvmdealloc, uvmcopy, freewalk and proc_freepagetable
    (kernel/vm.c, kernel/proc.c) on page tables in physical memory. */
module PageTable {
  import opened PageTableState
  import opened PageTableSteps

  /** From m to n only page-table pages were added: no translation, no ownership, no contents in use
      changed, and every frame is still accounted for. */
  ghost predicate TablesOnly(m: Mem, n: Mem)
  {
    SameMaps(m, n) && SameOwners(m, n) && SameData(m, n)
  }

  /** Every frame is still accounted for; only page-table pages may be new. */
  ghost predicate SameOwners(m: Mem, n: Mem)
  {
    && Frames(n) == Frames(m)
    && (forall f :: Loose(m, f) ==> Loose(n, f))
    && (forall f :: f in m.own ==> f in n.own && n.own[f] == m.own[f])
    && (forall f :: f in n.own && (n.own[f].Page? || n.own[f].Root?) ==> f in m.own)
  }

  /** Frame f holds data: it is neither free nor a page-table page. */
  ghost predicate InUse(m: Mem, f: nat) { f !in m.free && f !in m.tabs }

  /** Frames in use keep their contents. */
  ghost predicate SameData(m: Mem, n: Mem)
  {
    forall f :: f in m.data && InUse(m, f) ==> f in n.data && n.data[f] == m.data[f]
  }

  /** Frames were only given back, and those in use that were not keep their contents. */
  ghost predicate KeptData(m: Mem, n: Mem)
  {
    && (forall x :: x in m.free ==> x in n.free) && (forall x :: x in n.tabs ==> x in m.tabs)
    && forall f :: f in m.data && InUse(m, f) && f !in n.free ==> f in n.data && n.data[f] == m.data[f]
  }

  lemma KeptDataTrans(a: Mem, b: Mem, c: Mem)
    requires KeptData(a, b) && KeptData(b, c)
    ensures KeptData(a, c)
  {
  }

  lemma StaysInUse(a: Mem, b: Mem, f: nat)
    requires Inv(a) && Inv(b) && InUse(a, f) && (f in a.own ==> f in b.own && b.own[f] == a.own[f])
    requires Loose(a, f) ==> Loose(b, f) || (f in b.own && b.own[f].Page?)
    ensures InUse(b, f)
  {
    assert f in a.own ==> a.own[f].Page?;
    assert f in b.own && b.own[f].Page? ==> PageOk(b, f);
  }

  lemma DataTrans(a: Mem, b: Mem, c: Mem)
    requires Inv(a) && Inv(b) && SameData(a, b) && SameData(b, c)
    requires forall f :: f in a.own ==> f in b.own && b.own[f] == a.own[f]
    requires forall f :: Loose(a, f) ==> Loose(b, f) || (f in b.own && b.own[f].Page?)
    ensures SameData(a, c)
  {
    hide Inv;
    forall f | f in a.data && InUse(a, f) ensures f in c.data && c.data[f] == a.data[f] {
      StaysInUse(a, b, f);
    }
  }

  lemma TablesOnlyTrans(a: Mem, b: Mem, c: Mem)
    requires TablesOnly(a, b) && TablesOnly(b, c) && Inv(a) && Inv(b)
    ensures TablesOnly(a, c)
  {
    assert SameOwners(a, b) && SameOwners(b, c);
    DataTrans(a, b, c);
    hide Inv, SameData;
    assert SameOwners(a, c);
  }

  lemma LinkTablesOnly(m: Mem, t: nat, k: nat)
    requires Inv(m) && m.free != [] && CanLink(PopFree(m), t, k, m.free[0])
    ensures var n := Link(PopFree(m), t, k, m.free[0]); Inv(n) && TablesOnly(m, n)
  {
    hide Inv, Lookup, SameMaps, Link, PopFree;
    var f := m.free[0];
    var p := PopFree(m);
    PopFreeInv(m);
    LinkInv(p, t, k, f);
    MapsTrans(m, p, Link(p, t, k, f));
    LinkOwners(m, t, k);
    LinkData(m, t, k);
  }

  lemma MapsTrans(a: Mem, b: Mem, c: Mem)
    requires SameMaps(a, b) && SameMaps(b, c)
    ensures SameMaps(a, c)
  {
    hide Lookup;
  }

  lemma LinkOwners(m: Mem, t: nat, k: nat)
    requires m.free != [] && CanLink(PopFree(m), t, k, m.free[0]) && (forall x :: Loose(m, x) ==> Loose(PopFree(m), x))
    requires var p, n := PopFree(m), Link(PopFree(m), t, k, m.free[0]);
             Frames(p) + {m.free[0]} == Frames(m) && Frames(n) == Frames(p) + {m.free[0]}
    ensures SameOwners(m, Link(PopFree(m), t, k, m.free[0]))
  {
    hide Frames, Valid, Encode;
    assert m.free[0] in m.free;
  }

  lemma LinkData(m: Mem, t: nat, k: nat)
    requires m.free != [] && CanLink(PopFree(m), t, k, m.free[0])
    ensures SameData(m, Link(PopFree(m), t, k, m.free[0]))
  {
    assert m.free[0] in m.free;
  }

  /** Page-table page t is where walk of page v has come to at a level. */
  ghost predicate OnPath(m: Mem, r: nat, v: nat, level: nat, t: nat)
  {
    && v < MAXVPN && IsRoot(m, r) && t in m.tabs && t in m.own
    && (if level == 2 then t == r else if level == 1 then m.own[t] == Mid(r, A(v)) else m.own[t] == Low(r, A(v), B(v)))
  }

  /** The index walk uses at a level, below MAXVA. */
  function PX(level: nat, v: nat): (k: nat)
    requires v < MAXVPN
    ensures k < ENTRIES && (level == 2 ==> k < ENTRIES / 2)
  {
    SplitInjective(v, v);
    if level == 2 then A(v) else if level == 1 then B(v) else C(v)
  }

  /** How many page-table pages are missing on the way to page v. */
  function Lacking(m: Mem, r: nat, v: nat): (n: nat)
    ensures n <= 2
  {
    if A(v) >= ENTRIES || LowOf(m, r, A(v), B(v)) >= 0 then 0 else if MidOf(m, r, A(v)) >= 0 then 1 else 2
  }

  lemma PathLacks(m: Mem, r: nat, v: nat, level: nat, t: nat)
    requires Inv(m) && OnPath(m, r, v, level, t) && level <= 2
    ensures Lacking(m, r, v) <= level
  {
    assert TabOk(m, t);
  }

  lemma Descend(m: Mem, r: nat, v: nat, level: nat, t: nat)
    requires Inv(m) && OnPath(m, r, v, level, t) && 1 <= level <= 2
    ensures !Valid(m.tabs[t][PX(level, v)]) ==> Lacking(m, r, v) == level
    ensures Valid(m.tabs[t][PX(level, v)]) ==> OnPath(m, r, v, level - 1, FrameOf(m.tabs[t][PX(level, v)]))
    ensures !Valid(m.tabs[t][PX(level, v)]) ==> Lookup(m, r, v) == 0 && (m.own[t].Root? || m.own[t].Mid?)
  {
    assert TabOk(m, t);
  }

  lemma Linked(m: Mem, r: nat, v: nat, level: nat, t: nat)
    requires Inv(m) && OnPath(m, r, v, level, t) && 1 <= level <= 2 && m.free != [] && !Valid(m.tabs[t][PX(level, v)])
    ensures var n := Link(PopFree(m), t, PX(level, v), m.free[0]);
            && Inv(n) && TablesOnly(m, n) && OnPath(n, r, v, level - 1, m.free[0]) && Lacking(n, r, v) == level - 1
            && Tables(n, r) + Path(r, v) == Tables(m, r) + Path(r, v)
  {
    hide Inv, TablesOnly, Tables, Path, Lacking, Link, PopFree, Valid, FrameOf, A, B, C, PX;
    Descend(m, r, v, level, t);
    PopFreeInv(m);
    LinkedOnPath(m, r, v, level, t);
    LinkTablesOnly(m, t, PX(level, v));
    var n := Link(PopFree(m), t, PX(level, v), m.free[0]);
    PathLacks(n, r, v, level - 1, m.free[0]);
    if level == 2 {
      Descend(n, r, v, 1, m.free[0]);
    }
    LinkedTables(m, r, v, level, t);
  }

  lemma LinkedOnPath(m: Mem, r: nat, v: nat, level: nat, t: nat)
    requires OnPath(m, r, v, level, t) && 1 <= level <= 2 && m.free != [] && !Valid(m.tabs[t][PX(level, v)])
    requires Loose(PopFree(m), m.free[0]) && (m.own[t].Root? || m.own[t].Mid?)
    ensures CanLink(PopFree(m), t, PX(level, v), m.free[0])
    ensures var n := Link(PopFree(m), t, PX(level, v), m.free[0]);
            OnPath(n, r, v, level - 1, m.free[0]) && (level == 2 ==> !Valid(n.tabs[m.free[0]][PX(1, v)]))
  {
    hide Encode, A, B, C;
    NotValidZero();
  }

  lemma LinkedTables(m: Mem, r: nat, v: nat, level: nat, t: nat)
    requires Inv(m) && OnPath(m, r, v, level, t) && 1 <= level <= 2 && m.free != []
    ensures var n := Link(PopFree(m), t, PX(level, v), m.free[0]);
            Tables(n, r) + Path(r, v) == Tables(m, r) + Path(r, v)
  {
    assert FreeOk(m) && m.free[0] !in m.own;
    TablesLink(PopFree(m), t, PX(level, v), m.free[0], r);
    TablesSame(m, PopFree(m), r);
    assert ChildOwner(m.own[t], t, PX(level, v)) in Path(r, v);
  }

  // ----- how many frames it takes

  /** The page-table pages of the page table at r below its root. */
  ghost function Tables(m: Mem, r: nat): (t: set<Owner>)
  {
    set x | x in m.own && (m.own[x].Mid? || m.own[x].Low?) && m.own[x].r == r :: m.own[x]
  }

  /** The page-table pages walk passes through on the way to page v. */
  function Path(r: nat, v: nat): (t: set<Owner>) { {Mid(r, A(v)), Low(r, A(v), B(v))} }

  /** How many of them are not in t. */
  function Lack(t: set<Owner>, r: nat, v: nat): (n: nat)
    ensures n <= 2
  {
    (if Mid(r, A(v)) in t then 0 else 1) + (if Low(r, A(v), B(v)) in t then 0 else 1)
  }

  /** The frames it takes to map pages lo to hi except those in `skip`: `each` for a page, and one for every
      page-table page that is not in t. */
  function Need(t: set<Owner>, r: nat, each: nat, skip: set<nat>, lo: nat, hi: nat): (n: nat)
    decreases hi - lo
  {
    if lo >= hi then 0
    else if lo in skip then Need(t, r, each, skip, lo + 1, hi)
    else each + Lack(t, r, lo) + Need(t + Path(r, lo), r, each, skip, lo + 1, hi)
  }

  /** At most three a page. */
  lemma {:induction false} NeedAtMost(t: set<Owner>, r: nat, each: nat, skip: set<nat>, lo: nat, hi: nat)
    requires lo <= hi
    ensures Need(t, r, each, skip, lo, hi) <= (each + 2) * (hi - lo)
    decreases hi - lo
  {
    if lo < hi {
      NeedAtMost(t, r, each, skip, lo + 1, hi);
      NeedAtMost(t + Path(r, lo), r, each, skip, lo + 1, hi);
      assert (each + 2) * (hi - lo) == (each + 2) * (hi - (lo + 1)) + (each + 2);
    }
  }

  /** The pages below n that are not mapped. */
  ghost function Unmapped(m: Mem, r: nat, n: nat): (w: set<nat>) { set u | 0 <= u < n && Lookup(m, r, u) == 0 }

  /** A page-table page has an owner exactly if it is there. */
  lemma LackingIsLack(m: Mem, r: nat, v: nat)
    requires Inv(m) && IsRoot(m, r) && v < MAXVPN
    ensures Lacking(m, r, v) == Lack(Tables(m, r), r, v)
  {
    SplitInjective(v, v);
    LowOwner(m, r, A(v), B(v));
    hide A, B, C;
    if x :| x in m.own && m.own[x] == Mid(r, A(v)) {
      assert TabOk(m, x);
    }
    if x :| x in m.own && m.own[x] == Low(r, A(v), B(v)) {
      assert TabOk(m, x);
    }
  }

  lemma TablesLink(m: Mem, t: nat, k: nat, f: nat, r: nat)
    requires t in m.tabs && t in m.own && k < ENTRIES && f !in m.own && (m.own[t].Root? || m.own[t].Mid?)
    requires RootOf(m.own[t], t) == r
    ensures Tables(Link(m, t, k, f), r) == Tables(m, r) + {ChildOwner(m.own[t], t, k)}
  {
    var n := Link(m, t, k, f);
    var o := ChildOwner(m.own[t], t, k);
    forall y | y in Tables(m, r) ensures y in Tables(n, r) {
      var x :| x in m.own && m.own[x] == y;
      assert n.own[x] == y;
    }
    assert n.own[f] == o;
  }

  /** A frame that becomes a page, or leaves the free list, is no page-table page. */
  lemma TablesSame(m: Mem, n: Mem, r: nat)
    requires forall x :: x in m.own ==> x in n.own && n.own[x] == m.own[x]
    requires forall x :: x in n.own && (n.own[x].Mid? || n.own[x].Low?) ==> x in m.own
    ensures Tables(n, r) == Tables(m, r)
  {
    forall y | y in Tables(m, r) ensures y in Tables(n, r) {
      var x :| x in m.own && m.own[x] == y;
      assert n.own[x] == y;
    }
  }

  lemma NeedNext(t: set<Owner>, r: nat, each: nat, lo: nat, hi: nat)
    requires lo < hi
    ensures Need(t, r, each, {}, lo, hi) == each + Lack(t, r, lo) + Need(t + Path(r, lo), r, each, {}, lo + 1, hi)
  {
  }

  lemma NeedOne(t: set<Owner>, r: nat, each: nat, v: nat)
    ensures Need(t, r, each, {}, v, v + 1) == each + Lack(t, r, v)
  {
    NoNeed(t + Path(r, v), r, each, {}, v + 1);
  }

  lemma MappedOrNot(m0: Mem, m: Mem, r: nat, i: nat, n: nat)
    requires i < n && Lookup(m, r, i) == Lookup(m0, r, i)
    ensures i in Unmapped(m0, r, n) <==> Lookup(m, r, i) == 0
  {
  }

  lemma NoNeed(t: set<Owner>, r: nat, each: nat, skip: set<nat>, hi: nat)
    ensures Need(t, r, each, skip, hi, hi) == 0
  {
  }

  lemma LeafTables(m: Mem, r: nat, v: nat, t: nat, w: nat, mine: bool)
    requires t in m.tabs && (mine ==> FrameOf(w) !in m.own)
    ensures Tables(MapLeaf(m, r, v, t, w, mine), r) == Tables(m, r)
  {
    TablesSame(m, MapLeaf(m, r, v, t, w, mine), r);
  }

  lemma PathThere(m: Mem, r: nat, v: nat, t: nat)
    requires Inv(m) && OnPath(m, r, v, 0, t)
    ensures Path(r, v) <= Tables(m, r)
  {
    assert TabOk(m, t);
    SplitInjective(v, v);
    LowOwner(m, r, A(v), B(v));
  }

  lemma TablesOnlySelf(m: Mem)
    ensures TablesOnly(m, m)
  {
  }

  class Vm {
    var tabs: map<nat, Table>
    var data: map<nat, nat>
    var free: seq<nat>
    ghost var own: map<nat, Owner>

    ghost function Abs(): Mem
      reads this
    {
      Mem(tabs, data, free, own)
    }

    /** kinit: all frames free, no page table. */
    constructor (frames: seq<nat>)
      requires forall i, j :: 0 <= i < j < |frames| ==> frames[i] != frames[j]
      ensures Inv(Abs()) && free == frames && own == map[]
    {
      tabs, data, free, own := map[], map[], frames, map[];
    }

    /** uvmcreate: the root of a page table that maps nothing, or -1. */
    method Uvmcreate() returns (r: int)
      requires Inv(Abs())
      modifies this
      ensures Inv(Abs()) && SameMaps(old(Abs()), Abs()) && Frames(Abs()) == Frames(old(Abs()))
      ensures r == -1 <==> old(free) == []
      ensures r != -1 ==> r >= 0 && !IsRoot(old(Abs()), r) && IsRoot(Abs(), r) && forall u :: 0 <= u < MAXVPN ==>
                Lookup(Abs(), r, u) == 0
    {
      hide Inv, Lookup;
      ghost var m0 := Abs();
      r := Kalloc();
      if r == -1 {
        return;
      }
      ghost var m1 := Abs();
      NewRoot(m0, m1);
      own := own[r := Root];
      tabs := tabs[r := ZeroTable()];
    }

    method Kalloc() returns (f: int)
      requires Inv(Abs())
      modifies this`free, this`data
      ensures f == -1 <==> old(free) == []
      ensures f == -1 ==> Abs() == old(Abs())
      ensures f != -1 ==> f == old(free)[0] && Abs() == PopFree(old(Abs()))
    {
      if free == [] {
        return -1;
      }
      f := free[0];
      free := free[1..];
      data := data[f := 5];
    }

    method Kfree(f: nat)
      modifies this`free, this`data
      ensures Abs() == PushFree(old(Abs()), f)
    {
      data := data[f := 1];
      free := [f] + free;
    }

    /** walk: the page that holds the leaf entry of v, or -1.  With `alloc` missing page-table pages are
        added, and none is taken back when memory runs out. */
    method Walk(r: nat, v: nat, alloc: bool) returns (t: int)
      requires Inv(Abs()) && IsRoot(Abs(), r) && v < MAXVPN
      modifies this
      ensures Inv(Abs()) && TablesOnly(old(Abs()), Abs())
      ensures t >= 0 ==> Holds(Abs(), r, v, t)
      ensures !alloc ==> Abs() == old(Abs())
      ensures t >= 0 <==> Lacking(old(Abs()), r, v) <= if alloc then |old(free)| else 0
      ensures t >= 0 ==> |free| == |old(free)| - Lacking(old(Abs()), r, v)
      ensures t >= 0 && alloc ==> Tables(Abs(), r) == Tables(old(Abs()), r) + Path(r, v)
      ensures t < 0 ==> Lookup(Abs(), r, v) == 0 && (alloc ==> free == [])
    {
      hide Inv, TablesOnly, Lacking, Tables, Path;
      ghost var m0 := Abs();
      TablesOnlySelf(m0);
      t := r;
      RootPath(m0, r, v);
      var level := 2;
      while level > 0
        invariant 0 <= level <= 2 && t >= 0
        invariant Inv(Abs()) && TablesOnly(m0, Abs()) && OnPath(Abs(), r, v, level, t)
        invariant !alloc ==> Abs() == m0
        invariant |free| - Lacking(Abs(), r, v) == |m0.free| - Lacking(m0, r, v)
        invariant Tables(Abs(), r) + Path(r, v) == Tables(m0, r) + Path(r, v)
      {
        ghost var m := Abs();
        Descend(m, r, v, level, t);
        var k := PX(level, v);
        if Valid(tabs[t][k]) {
          t := FrameOf(tabs[t][k]);
        } else {
          if !alloc {
            return -1;
          }
          var f := Kalloc();
          if f == -1 {
            return -1;
          }
          Linked(m, r, v, level, t);
          own := own[f := ChildOwner(own[t], t, k)];
          tabs := tabs[t := tabs[t][k := Encode(f, 1)]][f := ZeroTable()];
          TablesOnlyTrans(m0, m, Abs());
          t := f;
        }
        level := level - 1;
      }
      SplitInjective(v, v);
      PathLacks(Abs(), r, v, 0, t);
      PathThere(Abs(), r, v, t);
    }

    /** `*pte = PA2PTE(pa) | perm | PTE_V;` */
    method SetPte(r: nat, a: nat, t: nat, pa: nat, perm: nat, ghost mine: bool)
      requires t in tabs && perm < 1024
      modifies this`tabs, this`own
      ensures Abs() == MapLeaf(old(Abs()), r, a, t, Encode(pa, OrV(perm)), mine)
    {
      EncodeParts(pa, OrV(perm));
      if mine {
        own := own[pa := Page(r, a)];
      }
      tabs := tabs[t := tabs[t][C(a) := Encode(pa, OrV(perm))]];
    }

    /** mappages of n pages from v to the frames from f: 0 and exactly that range is mapped, or -1 and the
        first `done` pages of it are, as nothing is undone.  `mine` hands a single new frame over to the
        page table. */
    method Mappages(r: nat, v: nat, n: nat, f: nat, perm: nat, ghost mine: bool) returns (ret: int, ghost done: nat)
      requires Inv(Abs()) && IsRoot(Abs(), r) && 0 < n && v + n <= MAXVPN && GoodPerm(perm)
      requires (mine ==> n == 1 && Loose(Abs(), f) && f in data)
      requires forall u :: v <= u < v + n ==> Lookup(Abs(), r, u) == 0
      modifies this
      ensures Inv(Abs()) && (ret == 0 || ret == -1)
      ensures Mapped(old(Abs()), Abs(), r, v, done, f, OrV(perm), mine)
      ensures if ret == 0 then done == n else done < n && free == []
      ensures ret == 0 <==> |old(free)| >= Need(Tables(old(Abs()), r), r, 0, {}, v, v + n)
      ensures n == 1 && ret == 0 ==> |free| == |old(free)| - Lack(Tables(old(Abs()), r), r, v)
      ensures n == 1 && ret == 0 ==> Tables(Abs(), r) == Tables(old(Abs()), r) + Path(r, v)
    {
      hide Inv, Mapped, Updated, Lacking, Tables, Path, Lack, Need, MapLeaf, TablesOnly, Lookup;
      ghost var m0 := Abs();
      ghost var need := Need(Tables(m0, r), r, 0, {}, v, v + n);
      MappedSelf(m0, r, v, f, OrV(perm), mine);
      done := 0;
      var a, pa := v, f;
      while true
        invariant Inv(Abs()) && Mapped(m0, Abs(), r, v, done, f, OrV(perm), mine)
        invariant done < n && a == v + done && pa == f + done
        invariant |free| - Need(Tables(Abs(), r), r, 0, {}, a, v + n) == |m0.free| - need && (done == 0 ==> Abs() == m0)
        decreases n - done
      {
        NeedNext(Tables(Abs(), r), r, 0, a, v + n);
        BeforeLeaf(m0, Abs(), r, v, n, done, f, OrV(perm), mine);
        ghost var m1 := Abs();
        LackingIsLack(m1, r, a);
        var t := Walk(r, a, true);
        MappedTables(m0, m1, Abs(), r, v, done, f, OrV(perm), mine);
        if t < 0 {
          return -1, done;
        }
        LeafStep(m0, Abs(), r, v, n, done, t, f, perm, mine);
        LeafTables(Abs(), r, a, t, Encode(pa, OrV(perm)), mine);
        SetPte(r, a, t, pa, perm, mine);
        done := done + 1;
        if a == v + n - 1 {
          NoNeed(Tables(Abs(), r), r, 0, {}, v + n);
          break;
        }
        a, pa := a + 1, pa + 1;
      }
      ret := 0;
    }

    /** uvmunmap of n pages from v: afterwards exactly that range is unmapped.  With `doFree` the frames go back
        to the free list; the caller says so exactly for pages whose frame belongs to the page table. */
    method Uvmunmap(r: nat, v: nat, n: nat, doFree: bool)
      requires Inv(Abs()) && IsRoot(Abs(), r) && v + n <= MAXVPN
      requires forall u :: v <= u < v + n && Lookup(Abs(), r, u) != 0 ==> (doFree <==> Mine(Abs(), r, u))
      modifies this
      ensures Inv(Abs()) && Cleared(old(Abs()), Abs(), r, v, v + n)
    {
      hide Inv, Cleared, Holds, Updated, Lookup, Mine, Valid, FrameOf, C, TablesOnly;
      ghost var m0 := Abs();
      ClearedNone(m0, r, v, v);
      var a := v;
      while a < v + n
        invariant v <= a <= v + n
        invariant Inv(Abs()) && Cleared(m0, Abs(), r, v, a)
      {
        ClearedRoot(m0, Abs(), r, v, a);
        var t := Walk(r, a, false);
        ghost var m := Abs();
        if t < 0 {
          ClearedSkip(m0, m, r, v, a);
        } else {
          LeafThere(m, r, a, t);
          if !Valid(tabs[t][C(a)]) {
            ClearedSkip(m0, m, r, v, a);
          } else {
            UnmapStep(m0, m, r, v, a, t, doFree);
            if doFree {
              var pa := FrameOf(tabs[t][C(a)]);
              own := own - {pa};
              Kfree(pa);
            }
            tabs := tabs[t := tabs[t][C(a) := 0]];
          }
        }
        a := a + 1;
      }
    }

    /** kalloc, fill, mappages, and kfree if that fails: one page of uvmalloc or uvmcopy. */
    method NewPage(r: nat, v: nat, contents: nat, perm: nat) returns (ok: bool)
      requires Inv(Abs()) && IsRoot(Abs(), r) && v < MAXVPN && GoodPerm(perm) && Lookup(Abs(), r, v) == 0
      modifies this
      ensures Inv(Abs())
      ensures if ok then Placed(old(Abs()), Abs(), r, v, OrV(perm), contents) else TablesOnly(old(Abs()), Abs())
      ensures ok <==> |old(free)| > Lack(Tables(old(Abs()), r), r, v)
      ensures ok ==> |free| == |old(free)| - 1 - Lack(Tables(old(Abs()), r), r, v)
      ensures ok ==> Tables(Abs(), r) == Tables(old(Abs()), r) + Path(r, v)
    {
      hide Inv, TablesOnly, Placed, Lookup, OrV, GoodPerm, Tables, Path, Lack, Need;
      ghost var m0 := Abs();
      TablesOnlySelf(m0);
      var f := Kalloc();
      if f == -1 {
        return false;
      }
      data := data[f := contents];
      ghost var m1 := Abs();
      FrameTaken(m0, m1, f, contents);
      OneUnmapped(m0, m1, r, v);
      TablesSame(m0, m1, r);
      NeedOne(Tables(m1, r), r, 0, v);
      var ret, done := Mappages(r, v, 1, f, perm, true);
      ghost var m2 := Abs();
      if ret != 0 {
        PlacedUndone(m0, m1, m2, r, v, f, OrV(perm), contents);
        Kfree(f);
        return false;
      }
      PlacedDone(m0, m1, m2, r, v, f, perm, contents);
      ok := true;
    }

    /** uvmdealloc from page hi down to page lo. */
    method Uvmdealloc(r: nat, hi: nat, lo: nat)
      requires Inv(Abs()) && IsRoot(Abs(), r) && hi <= MAXVPN
      requires forall u :: lo <= u < hi && Lookup(Abs(), r, u) != 0 ==> Mine(Abs(), r, u)
      modifies this
      ensures Inv(Abs()) && Cleared(old(Abs()), Abs(), r, lo, hi)
    {
      if lo >= hi {
        ClearedNone(Abs(), r, lo, hi);
        return;
      }
      Uvmunmap(r, lo, hi - lo, true);
    }

    /** uvmalloc of pages lo to hi: 1 and every page has a zeroed frame of its own with the given permissions,
        or 0 and no translation, owner or contents changed and every frame taken was given back, except
        those of new page-table pages. */
    method Uvmalloc(r: nat, lo: nat, hi: nat, xperm: nat) returns (ok: bool)
      requires Inv(Abs()) && IsRoot(Abs(), r) && hi <= MAXVPN && GoodPerm(xperm)
      requires forall u :: lo <= u < hi ==> Lookup(Abs(), r, u) == 0
      modifies this
      ensures Inv(Abs())
      ensures ok <==> |old(free)| >= Need(Tables(old(Abs()), r), r, 1, {}, lo, hi)
      ensures lo >= hi ==> Abs() == old(Abs())
      ensures !ok ==> TablesOnly(old(Abs()), Abs())
      ensures ok && lo <= hi ==> Filled(old(Abs()), Abs(), r, lo, hi) && ZeroPages(Abs(), r, lo, hi, OrV(xperm))
    {
      hide Inv, TablesOnly, Filled, Placed, Cleared, Lookup, ZeroPages, Mine, GoodPerm, OrV;
      hide Tables, Path, Lack;
      ghost var m0 := Abs();
      ghost var need := Need(Tables(m0, r), r, 1, {}, lo, hi);
      TablesOnlySelf(m0);
      FilledSelf(m0, r, lo);
      NoZeroPages(m0, r, lo, OrV(xperm));
      var a := lo;
      while a < hi
        invariant lo <= a && (if lo <= hi then a <= hi else a == lo)
        invariant |free| - Need(Tables(Abs(), r), r, 1, {}, a, hi) == |m0.free| - need && (a == lo ==> Abs() == m0)
        invariant Inv(Abs()) && Filled(m0, Abs(), r, lo, a) && ZeroPages(Abs(), r, lo, a, OrV(xperm))
      {
        FilledNext(m0, Abs(), r, lo, a);
        ghost var m := Abs();
        NeedNext(Tables(m, r), r, 1, a, hi);
        ok := NewPage(r, a, 0, xperm);
        if !ok {
          FilledTables(m0, m, Abs(), r, lo, a);
          ghost var m1 := Abs();
          FilledMine(m0, m1, r, lo, a);
          Uvmdealloc(r, a, lo);
          FilledUndo(m0, m1, Abs(), r, lo, a);
          return;
        }
        FilledStep(m0, m, Abs(), r, lo, a, OrV(xperm), 0);
        ZeroStep(m, Abs(), r, lo, a, OrV(xperm));
        a := a + 1;
      }
      ok := true;
    }

    /** uvmcopy of the first n pages: true and the child's page table has, at the same pages, equal contents and
        flags in frames of its own, or false and nothing in use changed. */
    method Uvmcopy(src: nat, dst: nat, n: nat) returns (ok: bool)
      requires Inv(Abs()) && IsRoot(Abs(), src) && IsRoot(Abs(), dst) && src != dst && n <= MAXVPN
      requires forall u :: 0 <= u < n ==>
                 Lookup(Abs(), dst, u) == 0 && (Lookup(Abs(), src, u) != 0 ==> Mine(Abs(), src, u))
      modifies this
      ensures Inv(Abs())
      ensures ok <==> |old(free)| >= Need(Tables(old(Abs()), dst), dst, 1, Unmapped(old(Abs()), src, n), 0, n)
      ensures !ok ==> TablesOnly(old(Abs()), Abs())
      ensures ok ==> Filled(old(Abs()), Abs(), dst, 0, n) && Copied(old(Abs()), Abs(), src, dst, n)
    {
      hide Inv, TablesOnly, Filled, Placed, Cleared, Lookup, Copied;
      hide Mine, GoodPerm, OrV, Valid, Flags, FrameOf, C, Holds, Tables, Path, Lack, Unmapped;
      ghost var m0, skip := Abs(), Unmapped(Abs(), src, n);
      ghost var need := Need(Tables(m0, dst), dst, 1, skip, 0, n);
      FilledSelf(m0, dst, 0);
      NoneCopied(m0, src, dst);
      var i := 0;
      while i < n
        invariant 0 <= i <= n && |free| - Need(Tables(Abs(), dst), dst, 1, skip, i, n) == |m0.free| - need
        invariant Inv(Abs()) && Filled(m0, Abs(), dst, 0, i) && Copied(m0, Abs(), src, dst, i)
      {
        FilledNext(m0, Abs(), dst, 0, i);
        FilledOther(m0, Abs(), dst, i, src);
        MappedOrNot(m0, Abs(), src, i, n);
        var t := Walk(src, i, false);
        ghost var m := Abs();
        if t >= 0 {
          LeafThere(m, src, i, t);
        }
        if t < 0 || !Valid(tabs[t][C(i)]) {
          SkipCopy(m0, m, src, dst, i);
        } else {
          var w := tabs[t][C(i)];
          GoodLeaf(m, src, i, t);
          SourceThere(m0, m, src, dst, i);
          var mem := data[FrameOf(w)];
          ok := NewPage(dst, i, mem, Flags(w));
          if !ok {
            FilledTables(m0, m, Abs(), dst, 0, i);
            ghost var m1 := Abs();
            FilledMine(m0, m1, dst, 0, i);
            Uvmunmap(dst, 0, i, true);
            FilledUndo(m0, m1, Abs(), dst, 0, i);
            return;
          }
          FilledStep(m0, m, Abs(), dst, 0, i, OrV(Flags(w)), mem);
          CopyStep(m0, m, Abs(), src, dst, i, w);
        }
        i := i + 1;
      }
      ok := true;
    }

    /** The loop of freewalk over page-table page t: everything below it is freed. */
    method EmptyTable(t: nat, ghost level: nat, ghost r: nat)
      requires Inv(Abs()) && t in tabs && t in own && AtLevel(own[t], t, level, r) && AllMine(Abs(), r)
      modifies this
      ensures Inv(Abs()) && AllMine(Abs(), r) && Pruned(old(Abs()), Abs(), t) && t in tabs && Empty(tabs[t])
      decreases level
    {
      hide Inv, AllMine, Pruned, EmptiedTo, Valid, IsLeaf, FrameOf;
      ghost var m0 := Abs();
      PrunedSelf(m0, t);
      var i := 0;
      while i < ENTRIES
        invariant 0 <= i <= ENTRIES && t in m0.own
        invariant Inv(Abs()) && AllMine(Abs(), r) && Pruned(m0, Abs(), t) && EmptiedTo(m0, Abs(), t, i)
      {
        ghost var m := Abs();
        EntryKind(m0, m, t, i, level, r);
        var pte := tabs[t][i];
        if Valid(pte) && !IsLeaf(pte) {
          var child := FrameOf(pte);
          EmptyTable(child, level - 1, r);
          ChildGone(m0, m, Abs(), t, i, level, r);
          own := own - {child};
          tabs := tabs[t := tabs[t][i := 0]] - {child};
          Kfree(child);
        } else if Valid(pte) {
          LeafGone(m0, m, t, i, r);
          var pa := FrameOf(pte);
          own := own - {pa};
          Kfree(pa);
          tabs := tabs[t := tabs[t][i := 0]];
        } else {
          EntryAbsent(m0, m, t, i);
        }
        i := i + 1;
      }
      AllEntriesGone(m0, Abs(), t);
    }

    /** freewalk of a root. */
    method Freewalk(r: nat)
      requires Inv(Abs()) && IsRoot(Abs(), r) && AllMine(Abs(), r)
      modifies this
      ensures Inv(Abs()) && Destroyed(old(Abs()), Abs(), r)
    {
      hide Inv, AllMine, Pruned, Destroyed, Empty;
      ghost var m0 := Abs();
      RootPath(m0, r, 0);
      EmptyTable(r, 2, r);
      RootGone(m0, Abs(), r);
      own := own - {r};
      tabs := tabs - {r};
      Kfree(r);
    }

    /** uvmfree: the first n pages, then whatever is left, then the page-table pages. */
    method Uvmfree(r: nat, n: nat)
      requires Inv(Abs()) && IsRoot(Abs(), r) && AllMine(Abs(), r) && n <= MAXVPN
      modifies this
      ensures Inv(Abs()) && Destroyed(old(Abs()), Abs(), r)
    {
      hide Inv, Lookup, Mine, Cleared, Destroyed;
      ghost var m0 := Abs();
      if n > 0 {
        Uvmunmap(r, 0, n, true);
      } else {
        ClearedNone(m0, r, 0, 0);
      }
      ghost var m1 := Abs();
      AllMineCleared(m0, m1, r, n);
      Freewalk(r);
      DestroyedAfterClear(m0, m1, Abs(), r, 0, n);
    }

    /** proc_freepagetable: every frame of the page table, page-table pages and pages alike, goes back to the
        free list exactly once; the trampoline's and the trap frame's do not, and other page tables keep
        what they have. */
    method ProcFreepagetable(r: nat, n: nat)
      requires Inv(Abs()) && IsRoot(Abs(), r) && n <= TRAPFRAME
      requires forall u :: 0 <= u < MAXVPN && Lookup(Abs(), r, u) != 0 ==>
                 (Mine(Abs(), r, u) <==> u != TRAMPOLINE && u != TRAPFRAME)
      modifies this
      ensures Inv(Abs()) && Destroyed(old(Abs()), Abs(), r)
    {
      hide Inv, Lookup, Mine, Cleared, Destroyed, AllMine;
      ghost var m0 := Abs();
      Uvmunmap(r, TRAMPOLINE, 1, false);
      ghost var m1 := Abs();
      StillMine(m0, m1, r, TRAMPOLINE);
      Uvmunmap(r, TRAPFRAME, 1, false);
      ghost var m2 := Abs();
      StillMine(m1, m2, r, TRAPFRAME);
      RestMine(m0, m1, m2, r);
      Uvmfree(r, n);
      DestroyedAfterClear(m1, m2, Abs(), r, TRAPFRAME, TRAPFRAME + 1);
      DestroyedAfterClear(m0, m1, Abs(), r, TRAMPOLINE, TRAMPOLINE + 1);
    }
  }

  /** From m to n the page table at r ceased to exist: what it owned is free, exactly what other page tables
      owned is still owned, with the same contents, and they translate as before. */
  ghost predicate Destroyed(m: Mem, n: Mem, r: nat)
  {
    && DestroyedOwn(m, n, r) && KeptData(m, n)
    && (forall q, u {:trigger Lookup(n, q, u)} :: IsRoot(m, q) && q != r && 0 <= u < MAXVPN ==>
          Lookup(n, q, u) == Lookup(m, q, u))
  }

  ghost predicate DestroyedOwn(m: Mem, n: Mem, r: nat)
  {
    && Frames(n) == Frames(m) && (forall x :: Loose(m, x) ==> Loose(n, x))
    && (forall x :: x in n.own <==> x in m.own && RootOf(m.own[x], x) != r)
    && (forall x :: x in n.own ==> n.own[x] == m.own[x])
    && (forall x :: x in m.own && RootOf(m.own[x], x) == r ==> x in n.free)
  }

  /** Page-table page t is at a level of the tree at r. */
  ghost predicate AtLevel(o: Owner, t: nat, level: nat, r: nat)
  {
    && RootOf(o, t) == r
    && (if level == 2 then o.Root? else if level == 1 then o.Mid? else level == 0 && o.Low?)
  }

  /** The first n pages of dst in n1 are copies of those of src in m: mapped where they were, flags and contents
      alike. */
  ghost predicate Copied(m: Mem, n1: Mem, src: nat, dst: nat, n: nat)
  {
    forall u :: 0 <= u < n ==> CopiedAt(m, n1, src, dst, u)
  }

  ghost predicate CopiedAt(m: Mem, n: Mem, src: nat, dst: nat, u: nat)
  {
    var w, x := Lookup(m, src, u), Lookup(n, dst, u);
    && (x == 0 <==> w == 0)
    && (w != 0 ==>
          Mine(n, dst, u) && Flags(x) == Flags(w) && FrameOf(w) in m.data && FrameOf(x) in n.data &&
          n.data[FrameOf(x)] == m.data[FrameOf(w)])
  }

  lemma NoneCopied(m: Mem, src: nat, dst: nat)
    ensures Copied(m, m, src, dst, 0)
  {
  }

  lemma FilledOther(m0: Mem, m: Mem, r: nat, i: nat, q: nat)
    requires Filled(m0, m, r, 0, i) && IsRoot(m0, q) && q != r && i < MAXVPN
    ensures IsRoot(m, q) && Lookup(m, q, i) == Lookup(m0, q, i)
  {
    hide Lookup;
  }

  lemma SkipCopy(m0: Mem, m: Mem, src: nat, dst: nat, i: nat)
    requires Filled(m0, m, dst, 0, i) && Copied(m0, m, src, dst, i) && i < MAXVPN
    requires Lookup(m, dst, i) == Lookup(m0, dst, i) == 0 && Lookup(m0, src, i) == 0
    ensures Filled(m0, m, dst, 0, i + 1) && Copied(m0, m, src, dst, i + 1)
  {
    hide Lookup, FrameOf, Flags, Mine;
    assert FilledOwn(m0, m, dst, 0, i);
    assert FilledOwn(m0, m, dst, 0, i + 1);
    assert CopiedAt(m0, m, src, dst, i);
  }

  lemma GoodLeaf(m: Mem, r: nat, v: nat, t: nat)
    requires Inv(m) && Holds(m, r, v, t) && Valid(m.tabs[t][C(v)])
    ensures var w := m.tabs[t][C(v)]; GoodPerm(Flags(w)) && OrV(Flags(w)) == Flags(w)
  {
    assert TabOk(m, t);
    FlagsOf(m.tabs[t][C(v)]);
  }

  lemma FlagsOf(w: nat)
    ensures IsLeaf(Flags(w)) == IsLeaf(w) && Valid(Flags(w)) == Valid(w) && w == Encode(FrameOf(w), Flags(w))
  {
    EncodeParts(FrameOf(w), Flags(w));
  }

  lemma SourceThere(m0: Mem, m: Mem, src: nat, dst: nat, i: nat)
    requires Inv(m0) && Filled(m0, m, dst, 0, i) && Mine(m0, src, i)
    ensures FrameOf(Lookup(m0, src, i)) in m.data
  {
    assert SameData(m0, m);
    MineInUse(m0, src, i);
  }

  lemma MineInUse(m: Mem, r: nat, u: nat)
    requires Inv(m) && Mine(m, r, u)
    ensures var f := FrameOf(Lookup(m, r, u)); f in m.own && InUse(m, f) && f in m.data
  {
    assert PageOk(m, FrameOf(Lookup(m, r, u)));
  }

  lemma CopyKept(m0: Mem, m: Mem, n: Mem, src: nat, dst: nat, u: nat)
    requires Inv(m) && CopiedAt(m0, m, src, dst, u) && Lookup(n, dst, u) == Lookup(m, dst, u) && SameData(m, n)
    requires forall x :: x in m.own ==> x in n.own && n.own[x] == m.own[x]
    ensures CopiedAt(m0, n, src, dst, u)
  {
    if Lookup(m, dst, u) != 0 {
      MineInUse(m, dst, u);
    }
    hide Inv, Lookup, FrameOf, Flags;
  }

  lemma CopyStep(m0: Mem, m: Mem, n: Mem, src: nat, dst: nat, i: nat, w: nat)
    requires Inv(m0) && Inv(m) && Filled(m0, m, dst, 0, i) && Copied(m0, m, src, dst, i) && i < MAXVPN
    requires IsRoot(m0, dst)
    requires w == Lookup(m0, src, i) && w != 0 && Mine(m0, src, i) && FrameOf(w) in m.data
    requires Placed(m, n, dst, i, Flags(w), m.data[FrameOf(w)])
    ensures Copied(m0, n, src, dst, i + 1)
  {
    hide Lookup, FrameOf, Flags, Inv;
    assert FilledOwn(m0, m, dst, 0, i) && SameData(m0, m);
    MineInUse(m0, src, i);
    forall u | 0 <= u < i ensures CopiedAt(m0, n, src, dst, u) {
      assert CopiedAt(m0, m, src, dst, u);
      assert Lookup(n, dst, u) == Lookup(m, dst, u);
      CopyKept(m0, m, n, src, dst, u);
    }
    assert CopiedAt(m0, n, src, dst, i);
  }

  /** From m to n pages lo to hi of the page table at r, unmapped in m, got frames of their own, or none;
      nothing else in use changed. */
  ghost predicate Filled(m: Mem, n: Mem, r: nat, lo: nat, hi: nat)
  {
    && IsRoot(m, r) && (forall q :: IsRoot(m, q) ==> IsRoot(n, q))
    && (forall q, u {:trigger Lookup(n, q, u)} :: IsRoot(m, q) && 0 <= u < MAXVPN && !(q == r && lo <= u < hi) ==>
          Lookup(n, q, u) == Lookup(m, q, u))
    && (forall u {:trigger Lookup(n, r, u)} {:trigger Lookup(m, r, u)} :: lo <= u < hi ==>
          Lookup(m, r, u) == 0 && (Lookup(n, r, u) != 0 ==> Mine(n, r, u) && FrameOf(Lookup(n, r, u)) in m.free))
    && FilledOwn(m, n, r, lo, hi) && SameData(m, n)
  }

  ghost predicate FilledOwn(m: Mem, n: Mem, r: nat, lo: nat, hi: nat)
  {
    && Frames(n) == Frames(m)
    && (forall x :: Loose(m, x) ==> Loose(n, x))
    && (forall x :: x in m.own ==> x in n.own && n.own[x] == m.own[x])
    && (forall x :: x in n.own && n.own[x].Root? ==> x in m.own)
    && (forall x :: x in n.own && n.own[x].Page? ==> x in m.own || (n.own[x].r == r && lo <= n.own[x].v < hi))
  }

  ghost predicate ZeroPages(n: Mem, r: nat, lo: nat, hi: nat, flags: nat)
  {
    forall u {:trigger Lookup(n, r, u)} :: lo <= u < hi ==>
      var w := Lookup(n, r, u);
            w != 0 && Flags(w) == flags && Mine(n, r, u) && FrameOf(w) in n.data && n.data[FrameOf(w)] == 0
  }

  lemma FilledSelf(m: Mem, r: nat, lo: nat)
    requires IsRoot(m, r)
    ensures Filled(m, m, r, lo, lo)
  {
  }

  lemma NoZeroPages(m: Mem, r: nat, lo: nat, flags: nat)
    ensures ZeroPages(m, r, lo, lo, flags)
  {
  }

  lemma FilledNext(m0: Mem, m: Mem, r: nat, lo: nat, a: nat)
    requires Filled(m0, m, r, lo, a) && a < MAXVPN
    ensures IsRoot(m, r) && Lookup(m, r, a) == Lookup(m0, r, a)
  {
    hide Lookup;
  }

  lemma FilledOwnTables(m0: Mem, m: Mem, n: Mem, r: nat, lo: nat, a: nat)
    requires FilledOwn(m0, m, r, lo, a) && SameOwners(m, n)
    ensures FilledOwn(m0, n, r, lo, a)
  {
  }

  lemma FilledTables(m0: Mem, m: Mem, n: Mem, r: nat, lo: nat, a: nat)
    requires Filled(m0, m, r, lo, a) && TablesOnly(m, n) && Inv(m0) && Inv(m) && a <= MAXVPN
    ensures Filled(m0, n, r, lo, a)
  {
    hide Lookup, FrameOf, Inv;
    assert FilledOwn(m0, m, r, lo, a) && SameOwners(m, n) && SameMaps(m, n);
    DataTrans(m0, m, n);
    FilledOwnTables(m0, m, n, r, lo, a);
    hide FilledOwn, SameData;
    forall u {:trigger Lookup(n, r, u)} | lo <= u < a
      ensures Lookup(m0, r, u) == 0 && (Lookup(n, r, u) != 0 ==> Mine(n, r, u) && FrameOf(Lookup(n, r, u)) in m0.free)
    {
      assert Lookup(n, r, u) == Lookup(m, r, u);
    }
  }

  lemma FilledMine(m0: Mem, m: Mem, r: nat, lo: nat, a: nat)
    requires Filled(m0, m, r, lo, a)
    ensures IsRoot(m, r) && forall u :: lo <= u < a && Lookup(m, r, u) != 0 ==> Mine(m, r, u)
  {
  }

  lemma FilledUndoMaps(m0: Mem, m: Mem, n: Mem, r: nat, lo: nat, a: nat)
    requires Filled(m0, m, r, lo, a) && Cleared(m, n, r, lo, a) && a <= MAXVPN
    ensures SameMaps(m0, n)
  {
    hide Lookup, FrameOf, FilledOwn, ClearedOwn, SameData, Mine;
    forall q, u {:trigger Lookup(n, q, u)} | IsRoot(m0, q) && 0 <= u < MAXVPN
      ensures Lookup(n, q, u) == Lookup(m0, q, u)
    {
      assert Lookup(m, q, u) == Lookup(m0, q, u) || (q == r && lo <= u < a);
      assert Lookup(m, r, u) == Lookup(m, q, u) || q != r;
    }
  }

  lemma FilledUndoOwn(m0: Mem, m: Mem, n: Mem, r: nat, lo: nat, a: nat)
    requires FilledOwn(m0, m, r, lo, a) && ClearedOwn(m, n, r, lo, a) && Inv(m0) && Inv(n)
    requires forall u :: lo <= u < a ==> Lookup(n, r, u) == 0 && Lookup(m0, r, u) == 0
    ensures SameOwners(m0, n)
  {
    hide Lookup, FrameOf, TabOk, Frames;
    assert !Valid(0);
    hide Valid;
    forall x | x in m0.own ensures x in n.own && n.own[x] == m0.own[x] {
      assert m0.own[x].Page? ==> PageOk(m0, x);
    }
    forall x | x in n.own && n.own[x].Page? ensures x in m0.own {
      assert PageOk(n, x);
    }
  }

  lemma FilledUndoData(m0: Mem, m: Mem, n: Mem, r: nat, lo: nat, a: nat)
    requires Filled(m0, m, r, lo, a) && Cleared(m, n, r, lo, a) && Inv(m0) && Inv(m) && Inv(n) && SameOwners(m0, n)
    ensures SameData(m0, n)
  {
    hide Lookup, FrameOf, Mine, Inv;
    assert FilledOwn(m0, m, r, lo, a) && SameData(m0, m);
    forall f | f in m0.data && InUse(m0, f) ensures f in n.data && n.data[f] == m0.data[f] {
      StaysInUse(m0, m, f);
      StaysInUse(m0, n, f);
    }
  }

  /** What uvmdealloc takes away is exactly what had been put there. */
  lemma FilledUndo(m0: Mem, m: Mem, n: Mem, r: nat, lo: nat, a: nat)
    requires Filled(m0, m, r, lo, a) && Inv(m0) && Inv(m) && Inv(n) && a <= MAXVPN && lo <= a
    requires Cleared(m, n, r, lo, a)
    ensures TablesOnly(m0, n)
  {
    hide Lookup, FrameOf, Mine, Inv;
    FilledUndoMaps(m0, m, n, r, lo, a);
    forall u | lo <= u < a ensures Lookup(n, r, u) == 0 && Lookup(m0, r, u) == 0 {
      assert Lookup(n, r, u) == 0 && Lookup(m, r, u) == Lookup(m, r, u);
    }
    FilledUndoOwn(m0, m, n, r, lo, a);
    FilledUndoData(m0, m, n, r, lo, a);
  }

  lemma FilledOwnStep(m0: Mem, m: Mem, n: Mem, r: nat, lo: nat, a: nat, f: nat)
    requires FilledOwn(m0, m, r, lo, a) && lo <= a && Frames(n) == Frames(m) && f in n.own && n.own[f] == Page(r, a)
    requires forall x :: Loose(m, x) ==> Loose(n, x)
    requires forall x :: x in m.own ==> x in n.own && n.own[x] == m.own[x]
    requires forall x :: x in n.own && (n.own[x].Page? || n.own[x].Root?) ==> x in m.own || x == f
    ensures FilledOwn(m0, n, r, lo, a + 1)
  {
  }

  lemma FilledStep(m0: Mem, m: Mem, n: Mem, r: nat, lo: nat, a: nat, flags: nat, d: nat)
    requires Filled(m0, m, r, lo, a) && Placed(m, n, r, a, flags, d) && Inv(m0) && Inv(m) && lo <= a < MAXVPN
    requires Lookup(m0, r, a) == 0
    ensures Filled(m0, n, r, lo, a + 1)
  {
    hide Lookup, FrameOf, Flags, Inv;
    var f := FrameOf(Lookup(n, r, a));
    assert FilledOwn(m0, m, r, lo, a);
    DataTrans(m0, m, n);
    FilledOwnStep(m0, m, n, r, lo, a, f);
    FreshFrame(m0, m, r, lo, a, f);
    hide FilledOwn, SameData;
    forall u {:trigger Lookup(n, r, u)} | lo <= u < a + 1
      ensures Lookup(m0, r, u) == 0 && (Lookup(n, r, u) != 0 ==> Mine(n, r, u) && FrameOf(Lookup(n, r, u)) in m0.free)
    {
      if u != a {
        assert Lookup(n, r, u) == Lookup(m, r, u);
        assert Lookup(m, r, u) != 0 ==> Mine(m, r, u);
      }
    }
    assert (forall q, u {:trigger Lookup(n, q, u)} ::
              IsRoot(m0, q) && 0 <= u < MAXVPN && !(q == r && lo <= u < a + 1) ==> Lookup(n, q, u) == Lookup(m0, q, u));
  }

  /** What is free now was free before. */
  lemma FreshFrame(m0: Mem, m: Mem, r: nat, lo: nat, a: nat, f: nat)
    requires FilledOwn(m0, m, r, lo, a) && Inv(m0) && Inv(m) && f in m.free
    ensures f in m0.free
  {
    assert f in Frames(m);
  }

  lemma ZeroStep(m: Mem, n: Mem, r: nat, lo: nat, a: nat, flags: nat)
    requires ZeroPages(m, r, lo, a, flags) && Placed(m, n, r, a, flags, 0) && a < MAXVPN && IsRoot(m, r) && Inv(m)
    ensures ZeroPages(n, r, lo, a + 1, flags)
  {
    hide Lookup, FrameOf, Flags;
  }

  /** From m to n page v of the page table at r got a frame of its own from the free list, with the given
      flags and contents; nothing else in use changed. */
  ghost predicate Placed(m: Mem, n: Mem, r: nat, v: nat, flags: nat, contents: nat)
  {
    var w := Lookup(n, r, v);
    var f := FrameOf(w);
    && w != 0 && Flags(w) == flags && f in m.free && f in n.own && n.own[f] == Page(r, v) && f in n.data
    && n.data[f] == contents
    && (forall q :: IsRoot(m, q) ==> IsRoot(n, q))
    && (forall q, u {:trigger Lookup(n, q, u)} :: IsRoot(m, q) && 0 <= u < MAXVPN && !(q == r && u == v) ==>
          Lookup(n, q, u) == Lookup(m, q, u))
    && Frames(n) == Frames(m)
    && (forall x :: Loose(m, x) ==> Loose(n, x))
    && (forall x :: x in m.own ==> x in n.own && n.own[x] == m.own[x])
    && (forall x :: x in n.own && (n.own[x].Page? || n.own[x].Root?) ==> x in m.own || x == f)
    && SameData(m, n)
  }

  lemma FrameTaken(m0: Mem, m1: Mem, f: nat, contents: nat)
    requires Inv(m0) && m0.free != [] && f == m0.free[0] && m1 == PopFree(m0).(data := PopFree(m0).data[f := contents])
    ensures Inv(m1) && SameMaps(m0, m1) && Frames(m1) + {f} == Frames(m0) && Loose(m1, f) && SameData(m0, m1)
    ensures forall x :: Loose(m0, x) ==> Loose(m1, x) && x != f
  {
    hide Inv, Lookup, SameMaps, Frames;
    PopFreeInv(m0);
    FrameFilled(m0, m1, f, contents);
    FreeListInv(PopFree(m0), m1);
    MapsTrans(m0, PopFree(m0), m1);
  }

  lemma FrameFilled(m0: Mem, m1: Mem, f: nat, contents: nat)
    requires Inv(m0) && m0.free != [] && f == m0.free[0] && m1 == PopFree(m0).(data := PopFree(m0).data[f := contents])
    requires Inv(PopFree(m0)) && Loose(PopFree(m0), f) && (forall x :: Loose(m0, x) ==> Loose(PopFree(m0), x))
    ensures FreeOk(m1) && Frames(m1) == Frames(PopFree(m0)) && Loose(m1, f) && SameData(m0, m1)
    ensures PopFree(m0).data.Keys <= m1.data.Keys
    ensures forall x :: Loose(m0, x) ==> Loose(m1, x) && x != f
  {
    hide TabOk, PageOk;
    assert f in m0.free;
  }

  lemma OneUnmapped(m0: Mem, m1: Mem, r: nat, v: nat)
    requires SameMaps(m0, m1) && IsRoot(m0, r) && v < MAXVPN && Lookup(m0, r, v) == 0
    ensures IsRoot(m1, r) && forall u :: v <= u < v + 1 ==> Lookup(m1, r, u) == 0
  {
    hide Lookup;
    assert Lookup(m1, r, v) == 0;
  }

  lemma PlacedMaps(m0: Mem, m1: Mem, m2: Mem, r: nat, v: nat, f: nat, flags: nat)
    requires SameMaps(m0, m1) && Mapped(m1, m2, r, v, 1, f, flags, true) && IsRoot(m0, r) && v < MAXVPN
    ensures Lookup(m2, r, v) == Encode(f, flags) && forall q :: IsRoot(m0, q) ==> IsRoot(m2, q)
    ensures forall q, u {:trigger Lookup(m2, q, u)} :: IsRoot(m0, q) && 0 <= u < MAXVPN && !(q == r && u == v) ==>
              Lookup(m2, q, u) == Lookup(m0, q, u)
  {
    hide Lookup, Encode;
    assert Lookup(m2, r, v) == Encode(f + 0, flags);
    forall q, u {:trigger Lookup(m2, q, u)} | IsRoot(m0, q) && 0 <= u < MAXVPN && !(q == r && u == v)
      ensures Lookup(m2, q, u) == Lookup(m0, q, u)
    {
      assert Lookup(m2, q, u) == Lookup(m1, q, u);
    }
  }

  lemma PlacedDone(m0: Mem, m1: Mem, m2: Mem, r: nat, v: nat, f: nat, perm: nat, contents: nat)
    requires Inv(m0) && m0.free != [] && f == m0.free[0] && m1 == PopFree(m0).(data := PopFree(m0).data[f := contents])
    requires Inv(m1) && SameMaps(m0, m1) && Frames(m1) + {f} == Frames(m0) && Loose(m1, f) && SameData(m0, m1)
    requires (forall x :: Loose(m0, x) ==> Loose(m1, x) && x != f)
    requires Mapped(m1, m2, r, v, 1, f, OrV(perm), true) && IsRoot(m0, r) && v < MAXVPN && GoodPerm(perm)
    ensures Placed(m0, m2, r, v, OrV(perm), contents)
  {
    hide Lookup, Encode, FrameOf, Flags, IsLeaf, Valid, OrV, Inv;
    LeafWord(f, perm);
    PlacedMaps(m0, m1, m2, r, v, f, OrV(perm));
    assert MappedOwn(m1, m2, r, v, f, true) && SameData(m1, m2);
    DataTrans(m0, m1, m2);
    hide Mapped, SameMaps;
    assert InUse(m1, f) && f in m1.data;
  }

  lemma UndoneOwners(m0: Mem, m1: Mem, m2: Mem, r: nat, v: nat, f: nat)
    requires Inv(m0) && m0.free != [] && f == m0.free[0] && m1.own == m0.own && m1.tabs == m0.tabs
    requires Frames(m1) + {f} == Frames(m0)
    requires MappedOwn(m1, m2, r, v, f, false) && Loose(m1, f) && (forall x :: Loose(m0, x) ==> Loose(m1, x) && x != f)
    ensures SameOwners(m0, PushFree(m2, f))
  {
  }

  lemma PlacedUndone(m0: Mem, m1: Mem, m2: Mem, r: nat, v: nat, f: nat, flags: nat, contents: nat)
    requires Inv(m0) && m0.free != [] && f == m0.free[0] && m1 == PopFree(m0).(data := PopFree(m0).data[f := contents])
    requires Inv(m1) && Inv(m2) && SameMaps(m0, m1) && Frames(m1) + {f} == Frames(m0) && Loose(m1, f)
    requires SameData(m0, m1)
    requires Mapped(m1, m2, r, v, 0, f, flags, true) && forall x :: Loose(m0, x) ==> Loose(m1, x) && x != f
    ensures Inv(PushFree(m2, f)) && TablesOnly(m0, PushFree(m2, f))
  {
    hide Lookup, SameMaps, Inv;
    var n := PushFree(m2, f);
    assert MappedOwn(m1, m2, r, v, f, false);
    PushFreeInv(m2, f);
    UndoneMaps(m0, m1, m2, n, r, v, f, flags);
    UndoneOwners(m0, m1, m2, r, v, f);
    DataTrans(m0, m1, m2);
    assert f in m0.free;
  }

  lemma UndoneMaps(m0: Mem, m1: Mem, m2: Mem, n: Mem, r: nat, v: nat, f: nat, flags: nat)
    requires SameMaps(m0, m1) && Mapped(m1, m2, r, v, 0, f, flags, true) && SameMaps(m2, n)
    ensures SameMaps(m0, n)
  {
    hide Lookup;
    forall q, u {:trigger Lookup(n, q, u)} | IsRoot(m0, q) && 0 <= u < MAXVPN
      ensures Lookup(n, q, u) == Lookup(m0, q, u)
    {
      assert Lookup(n, q, u) == Lookup(m2, q, u) == Lookup(m1, q, u);
    }
  }

  /** The frame page u of the page table at r translates to belongs to that page table. */
  ghost predicate Mine(m: Mem, r: nat, u: nat)
  {
    var f := FrameOf(Lookup(m, r, u)); f in m.own && m.own[f] == Page(r, u)
  }

  /** From m to n pages lo to hi of the page table at r were unmapped, and the frames among them that
      belonged to it freed; nothing else changed. */
  ghost predicate Cleared(m: Mem, n: Mem, r: nat, lo: nat, hi: nat)
  {
    && (forall q :: IsRoot(m, q) ==> IsRoot(n, q))
    && (forall q, u {:trigger Lookup(n, q, u)} :: IsRoot(m, q) && 0 <= u < MAXVPN ==>
          Lookup(n, q, u) == if q == r && lo <= u < hi then 0 else Lookup(m, q, u))
    && ClearedOwn(m, n, r, lo, hi) && KeptData(m, n)
  }

  ghost predicate ClearedOwn(m: Mem, n: Mem, r: nat, lo: nat, hi: nat)
  {
    && Frames(n) == Frames(m)
    && (forall x :: Loose(m, x) ==> Loose(n, x))
    && (forall x :: x in n.own ==> x in m.own && n.own[x] == m.own[x])
    && (forall x :: x in m.own && x !in n.own ==> m.own[x].Page? && m.own[x].r == r && lo <= m.own[x].v < hi)
  }

  lemma ClearedNone(m: Mem, r: nat, lo: nat, hi: nat)
    requires hi <= lo
    ensures Cleared(m, m, r, lo, hi)
  {
  }

  lemma ClearedRoot(m0: Mem, m: Mem, r: nat, v: nat, a: nat)
    requires Cleared(m0, m, r, v, a) && IsRoot(m0, r)
    ensures IsRoot(m, r)
  {
  }

  lemma ClearedSkip(m0: Mem, m: Mem, r: nat, v: nat, a: nat)
    requires Cleared(m0, m, r, v, a) && IsRoot(m0, r) && v <= a < MAXVPN && Lookup(m, r, a) == 0 && Inv(m0)
    ensures Cleared(m0, m, r, v, a + 1)
  {
    hide Lookup;
  }

  lemma LeafThere(m: Mem, r: nat, a: nat, t: nat)
    requires Inv(m) && Holds(m, r, a, t)
    ensures t in m.tabs && (!Valid(m.tabs[t][C(a)]) ==> Lookup(m, r, a) == 0)
    ensures Valid(m.tabs[t][C(a)]) ==> Lookup(m, r, a) == m.tabs[t][C(a)] != 0
  {
    HeldLookup(m, r, a, t);
  }

  lemma UnmapStep(m0: Mem, m: Mem, r: nat, v: nat, a: nat, t: nat, doFree: bool)
    requires Inv(m0) && Inv(m) && Cleared(m0, m, r, v, a) && IsRoot(m0, r) && v <= a && Holds(m, r, a, t)
    requires Valid(m.tabs[t][C(a)])
    requires Lookup(m0, r, a) != 0 ==> (doFree <==> Mine(m0, r, a))
    ensures var n := UnmapLeaf(m, r, a, t, doFree); Inv(n) && Cleared(m0, n, r, v, a + 1)
  {
    hide Inv, TabOk, Valid, A, B, C, FrameOf;
    LeafThere(m, r, a, t);
    assert a < MAXVPN && Lookup(m, r, a) == Lookup(m0, r, a);
    MineKept(m0, m, r, v, a);
    hide Lookup;
    UnmapLeafInv(m, r, a, t, doFree);
    ClearedStep(m0, m, r, v, a, t, doFree);
  }

  lemma MineKept(m0: Mem, m: Mem, r: nat, v: nat, a: nat)
    requires Cleared(m0, m, r, v, a) && Lookup(m, r, a) == Lookup(m0, r, a)
    ensures Mine(m, r, a) <==> Mine(m0, r, a)
  {
    hide Lookup, FrameOf;
  }

  lemma ClearedStep(m0: Mem, m: Mem, r: nat, v: nat, a: nat, t: nat, doFree: bool)
    requires Cleared(m0, m, r, v, a) && v <= a < MAXVPN && t in m.tabs && CanUnmap(m, r, a, t, doFree) && IsRoot(m0, r)
    requires var n := UnmapLeaf(m, r, a, t, doFree); Updated(m, n, r, a, 0) && Frames(n) == Frames(m)
    ensures Cleared(m0, UnmapLeaf(m, r, a, t, doFree), r, v, a + 1)
  {
    hide Lookup, FrameOf, Valid, A, B, C, Frames;
  }

  /** Permission bits with PTE_R, PTE_W or PTE_X among them. */
  predicate GoodPerm(perm: nat) { perm < 1024 && IsLeaf(perm) }

  /** From m to n the k pages from v came to translate to the k frames from f; nothing else did. */
  ghost predicate Mapped(m: Mem, n: Mem, r: nat, v: nat, k: nat, f: nat, flags: nat, mine: bool)
  {
    && (forall q :: IsRoot(m, q) ==> IsRoot(n, q))
    && (forall q, u {:trigger Lookup(n, q, u)} :: IsRoot(m, q) && 0 <= u < MAXVPN ==>
          Lookup(n, q, u) == if q == r && v <= u < v + k then Encode(f + (u - v), flags) else Lookup(m, q, u))
    && MappedOwn(m, n, r, v, f, mine && k > 0) && SameData(m, n)
  }

  /** Frame f, if `mine`, came to belong to page v; apart from that only page-table pages may be new. */
  ghost predicate MappedOwn(m: Mem, n: Mem, r: nat, v: nat, f: nat, mine: bool)
  {
    && Frames(n) == Frames(m) + (if mine then {f} else {})
    && (forall x :: Loose(m, x) && !(mine && x == f) ==> Loose(n, x))
    && (forall x :: x in m.own ==> x in n.own && n.own[x] == m.own[x])
    && (forall x :: x in n.own && (n.own[x].Page? || n.own[x].Root?) ==> x in m.own || (mine && x == f))
    && (mine ==> f in n.own && n.own[f] == Page(r, v))
  }

  lemma MappedSelf(m: Mem, r: nat, v: nat, f: nat, flags: nat, mine: bool)
    ensures Mapped(m, m, r, v, 0, f, flags, mine)
  {
  }

  lemma BeforeLeaf(m0: Mem, m: Mem, r: nat, v: nat, n: nat, k: nat, f: nat, flags: nat, mine: bool)
    requires Mapped(m0, m, r, v, k, f, flags, mine) && IsRoot(m0, r) && k < n && v + n <= MAXVPN
    requires (mine ==> n == 1 && Loose(m0, f) && f in m0.data)
    requires forall u :: v <= u < v + n ==> Lookup(m0, r, u) == 0
    ensures IsRoot(m, r) && Lookup(m, r, v + k) == 0 && (mine ==> Loose(m, f + k) && f + k in m.data)
  {
  }

  lemma MappedTables(m0: Mem, m1: Mem, m2: Mem, r: nat, v: nat, k: nat, f: nat, flags: nat, mine: bool)
    requires Mapped(m0, m1, r, v, k, f, flags, mine) && TablesOnly(m1, m2) && Inv(m0) && Inv(m1)
    ensures Mapped(m0, m2, r, v, k, f, flags, mine)
  {
    DataTrans(m0, m1, m2);
  }

  lemma LeafWord(f: nat, perm: nat)
    requires GoodPerm(perm)
    ensures var w := Encode(f, OrV(perm));
            Valid(w) && IsLeaf(w) && FrameOf(w) == f && Flags(w) == OrV(perm) && !Valid(0)
  {
    EncodeParts(f, OrV(perm));
  }

  lemma LeafStep(m0: Mem, m: Mem, r: nat, v: nat, n: nat, k: nat, t: nat, f: nat, perm: nat, mine: bool)
    requires Inv(m0) && Inv(m) && Mapped(m0, m, r, v, k, f, OrV(perm), mine) && Holds(m, r, v + k, t) && GoodPerm(perm)
    requires IsRoot(m0, r) && k < n && v + n <= MAXVPN && (mine ==> n == 1 && Loose(m0, f) && f in m0.data)
    requires forall u :: v <= u < v + n ==> Lookup(m0, r, u) == 0
    ensures var w := Encode(f + k, OrV(perm)); var x := MapLeaf(m, r, v + k, t, w, mine);
            && t in m.tabs && Inv(x) && Mapped(m0, x, r, v, k + 1, f, OrV(perm), mine) && FrameOf(w) == f + k
            && (mine ==> f + k !in m.own)
  {
    hide Inv, Mapped, Encode, FrameOf, IsLeaf, Valid, A, B, C, OrV;
    var w := Encode(f + k, OrV(perm));
    BeforeLeaf(m0, m, r, v, n, k, f, OrV(perm), mine);
    LeafWord(f + k, perm);
    HeldLookup(m, r, v + k, t);
    MapLeafInv(m, r, v + k, t, w, mine);
    MappedStep(m0, m, r, v, k, t, f, OrV(perm), mine);
  }

  lemma MappedStep(m0: Mem, m: Mem, r: nat, v: nat, k: nat, t: nat, f: nat, flags: nat, mine: bool)
    requires Mapped(m0, m, r, v, k, f, flags, mine) && Inv(m0) && Inv(m) && t in m.tabs
    requires (mine ==> k == 0 && Loose(m, f) && f in m.data)
    requires FrameOf(Encode(f + k, flags)) == f + k
    requires var w := Encode(f + k, flags);
               Updated(m, MapLeaf(m, r, v + k, t, w, mine), r, v + k, w) &&
                     Frames(MapLeaf(m, r, v + k, t, w, mine)) == Frames(m) + (if mine then {FrameOf(w)} else {})
    ensures Mapped(m0, MapLeaf(m, r, v + k, t, Encode(f + k, flags), mine), r, v, k + 1, f, flags, mine)
  {
    hide Inv, Encode, FrameOf, Lookup;
  }

  // ----- freewalk

  /** The owner o is below page-table page t, whose own owner is p. */
  predicate Below(o: Owner, t: nat, p: Owner)
  {
    match p
    case Root => !o.Root? && o.r == t
    case Mid(r, a) => (o.Low? && o.r == r && o.a == a) || (o.Page? && o.r == r && A(o.v) == a)
    case Low(r, a, b) => o.Page? && o.r == r && A(o.v) == a && B(o.v) == b
    case Page(_, _) => false
  }

  function RootOf(o: Owner, t: nat): (r: nat) { if o.Root? then t else o.r }

  /** From m to n frames below page-table page t were freed; nothing else changed but t's own entries. */
  ghost predicate Pruned(m: Mem, n: Mem, t: nat)
    requires t in m.own
  {
    && PrunedOwn(m, n, t) && KeptData(m, n)
    && (forall x :: x in m.tabs && x in n.own && x != t ==> x in n.tabs && n.tabs[x] == m.tabs[x])
    && (forall q, u {:trigger Lookup(n, q, u)} :: IsRoot(m, q) && q != RootOf(m.own[t], t) && 0 <= u < MAXVPN ==>
          Lookup(n, q, u) == Lookup(m, q, u))
  }

  ghost predicate PrunedOwn(m: Mem, n: Mem, t: nat)
    requires t in m.own
  {
    && Frames(n) == Frames(m)
    && (forall x :: Loose(m, x) ==> Loose(n, x))
    && (forall x :: x in n.own ==> x in m.own && n.own[x] == m.own[x])
    && (forall x :: x in m.own && !Below(m.own[x], t, m.own[t]) ==> x in n.own)
  }

  /** Every page the page table at r maps is its own. */
  ghost predicate AllMine(m: Mem, r: nat)
  {
    forall u {:trigger Lookup(m, r, u)} :: 0 <= u < MAXVPN && Lookup(m, r, u) != 0 ==> Mine(m, r, u)
  }

  /** The first k entries of page-table page t are gone, the others as they were. */
  ghost predicate EmptiedTo(m: Mem, n: Mem, t: nat, k: nat)
  {
    && t in m.tabs && t in n.tabs && t in m.own
    && (forall j :: 0 <= j < k && j < ENTRIES ==> !Valid(n.tabs[t][j]))
    && (forall j :: k <= j < ENTRIES ==> n.tabs[t][j] == m.tabs[t][j])
  }

  lemma PrunedSelf(m: Mem, t: nat)
    requires t in m.own && t in m.tabs
    ensures Pruned(m, m, t) && EmptiedTo(m, m, t, 0)
  {
  }

  /** What an entry of t at its turn is: a page-table page of the next level, a page of the table's own, or
      nothing. */
  lemma EntryKind(m0: Mem, m: Mem, t: nat, i: nat, level: nat, r: nat)
    requires Inv(m) && AllMine(m, r) && t in m0.own && Pruned(m0, m, t) && EmptiedTo(m0, m, t, i) && i < ENTRIES
    requires AtLevel(m0.own[t], t, level, r)
    ensures t in m.tabs && t in m.own && m.own[t] == m0.own[t]
    ensures var w := m.tabs[t][i];
            Valid(w) && !IsLeaf(w) ==>
                  level > 0 && FrameOf(w) in m.tabs && FrameOf(w) in m.own &&
                        m.own[FrameOf(w)] == ChildOwner(m.own[t], t, i) &&
                              AtLevel(m.own[FrameOf(w)], FrameOf(w), level - 1, r)
    ensures Valid(m.tabs[t][i]) && IsLeaf(m.tabs[t][i]) ==> level == 0
  {
    assert PrunedOwn(m0, m, t);
    assert TabOk(m, t);
  }

  lemma EntryAbsent(m0: Mem, m: Mem, t: nat, i: nat)
    requires EmptiedTo(m0, m, t, i) && i < ENTRIES && !Valid(m.tabs[t][i])
    ensures EmptiedTo(m0, m, t, i + 1)
  {
    hide Valid;
  }

  lemma AllEntriesGone(m0: Mem, m: Mem, t: nat)
    requires EmptiedTo(m0, m, t, ENTRIES)
    ensures t in m.tabs && Empty(m.tabs[t])
  {
  }

  /** A leaf entry of page-table page t is the entry of a page below MAXVA. */
  lemma LeafPlace(m: Mem, t: nat, i: nat, r: nat)
    requires Inv(m) && t in m.tabs && t in m.own && m.own[t].Low? && m.own[t].r == r && i < ENTRIES
    requires Valid(m.tabs[t][i])
    ensures var v := Vpn(m.own[t].a, m.own[t].b, i); v < MAXVPN && C(v) == i && A(v) == m.own[t].a && B(v) == m.own[t].b
    ensures var v := Vpn(m.own[t].a, m.own[t].b, i); Holds(m, r, v, t) && Lookup(m, r, v) == m.tabs[t][i] != 0
  {
    assert TabOk(m, t) && TabOk(m, r);
    SplitOfVpn(m.own[t].a, m.own[t].b, i);
    HeldLookup(m, r, Vpn(m.own[t].a, m.own[t].b, i), t);
  }

  lemma AllMineAfterUnmap(m: Mem, n: Mem, r: nat, v: nat)
    requires AllMine(m, r) && IsRoot(m, r) && v < MAXVPN && Updated(m, n, r, v, 0) && Mine(m, r, v)
    requires n.own == m.own - {FrameOf(Lookup(m, r, v))}
    ensures AllMine(n, r)
  {
    hide Lookup, FrameOf;
    forall u {:trigger Lookup(n, r, u)} | 0 <= u < MAXVPN && Lookup(n, r, u) != 0 ensures Mine(n, r, u) {
      assert Lookup(n, r, u) == Lookup(m, r, u);
      assert Mine(m, r, u);
    }
  }

  lemma PrunedOwnStep(m0: Mem, m: Mem, n: Mem, t: nat, f: nat)
    requires t in m0.own && t in m.own && PrunedOwn(m0, m, t) && m.own[t] == m0.own[t] && f in m.own
    requires Below(m.own[f], t, m.own[t])
    requires Frames(n) == Frames(m) && n.own == m.own - {f} && (forall x :: Loose(m, x) ==> Loose(n, x))
    ensures PrunedOwn(m0, n, t)
  {
  }

  lemma LeafGone(m0: Mem, m: Mem, t: nat, i: nat, r: nat)
    requires Inv(m) && AllMine(m, r) && t in m0.own && t in m.own && Pruned(m0, m, t) && EmptiedTo(m0, m, t, i)
    requires i < ENTRIES
    requires m.own[t] == m0.own[t] && m.own[t].Low? && m.own[t].r == r && Valid(m.tabs[t][i])
    ensures var f := FrameOf(m.tabs[t][i]);
            var n := m.(tabs := m.tabs[t := m.tabs[t][i := 0]], own := m.own - {f}, free := [f] + m.free,
                  data := m.data[f := 1]);
            Inv(n) && AllMine(n, r) && Pruned(m0, n, t) && EmptiedTo(m0, n, t, i + 1)
  {
    hide Lookup, FrameOf, A, B, C, Inv, TabOk, Vpn, Frames;
    LeafPlace(m, t, i, r);
    var v := Vpn(m.own[t].a, m.own[t].b, i);
    assert Mine(m, r, v);
    var n := UnmapLeaf(m, r, v, t, true);
    UnmapLeafInv(m, r, v, t, true);
    AllMineAfterUnmap(m, n, r, v);
    assert PrunedOwn(m0, m, t);
    PrunedOwnStep(m0, m, n, t, FrameOf(m.tabs[t][i]));
    assert KeptData(m, n);
    LeafGonePruned(m0, m, n, t, r, v);
  }

  lemma LeafGonePruned(m0: Mem, m: Mem, n: Mem, t: nat, r: nat, v: nat)
    requires t in m0.own && Pruned(m0, m, t) && PrunedOwn(m0, n, t) && RootOf(m0.own[t], t) == r
    requires Updated(m, n, r, v, 0)
    requires forall x :: x in m.tabs && x != t ==> x in n.tabs && n.tabs[x] == m.tabs[x]
    requires forall x :: x in n.own ==> x in m.own
    requires forall q :: IsRoot(m0, q) ==> IsRoot(m, q)
    requires KeptData(m, n)
    ensures Pruned(m0, n, t)
  {
    KeptDataTrans(m0, m, n);
    hide Lookup, PrunedOwn, KeptData;
  }

  /** The pages below a child are below its parent. */
  lemma BelowChild(o: Owner, c: nat, t: nat, p: Owner, k: nat)
    requires !p.Low? && !p.Page? && Below(o, c, ChildOwner(p, t, k))
    ensures Below(o, t, p)
  {
  }

  lemma PrunedOwnChild(m0: Mem, m: Mem, m1: Mem, n: Mem, t: nat, c: nat, k: nat)
    requires t in m0.own && t in m.own && c in m.own && PrunedOwn(m0, m, t) && PrunedOwn(m, m1, c)
    requires m.own[t] == m0.own[t] && m.own[c] == ChildOwner(m.own[t], t, k)
    requires (m.own[t].Root? || m.own[t].Mid?) && Frames(n) == Frames(m1) && n.own == m1.own - {c}
    requires (forall x :: Loose(m1, x) ==> Loose(n, x))
    ensures PrunedOwn(m0, n, t)
  {
    forall x | x in m0.own && !Below(m0.own[x], t, m0.own[t]) ensures x in n.own {
      assert x in m.own && m.own[x] == m0.own[x];
      if Below(m.own[x], c, m.own[c]) {
        BelowChild(m.own[x], c, t, m.own[t], k);
      }
    }
  }

  lemma ChildGone(m0: Mem, m: Mem, m1: Mem, t: nat, i: nat, level: nat, r: nat)
    requires Inv(m) && Inv(m1) && t in m0.own && t in m.own && Pruned(m0, m, t) && EmptiedTo(m0, m, t, i)
    requires i < ENTRIES && m.own[t] == m0.own[t]
    requires (m.own[t].Root? || m.own[t].Mid?) && RootOf(m.own[t], t) == r && Valid(m.tabs[t][i]) && AllMine(m1, r)
    requires var c := FrameOf(m.tabs[t][i]);
               c in m.own && m.own[c] == ChildOwner(m.own[t], t, i) && Pruned(m, m1, c) && c in m1.tabs &&
                     Empty(m1.tabs[c])
    ensures var c := FrameOf(m.tabs[t][i]);
            && t in m1.tabs && m1.tabs[t][i] == m.tabs[t][i]
            && var n := m1.(tabs := m1.tabs[t := m1.tabs[t][i := 0]] - {c}, own := m1.own - {c}, free := [c] + m1.free,
                  data := m1.data[c := 1]);
            Inv(n) && AllMine(n, r) && Pruned(m0, n, t) && EmptiedTo(m0, n, t, i + 1)
  {
    hide Inv, Lookup, FrameOf, Valid, Frames, AllMine, A, B, SameMaps, PrunedOwn, KeptData, Pruned, Loose;
    var c := FrameOf(m.tabs[t][i]);
    PrunedParts(m0, m, t);
    PrunedParts(m, m1, c);
    TableStays(m, m1, t, c, i);
    UnlinkInv(m1, t, i);
    UnlinkFacts(m1, t, i);
    UnlinkKeeps(m1, t, i);
    var n := Unlink(m1, t, i);
    PrunedOwnChild(m0, m, m1, n, t, c, i);
    RootsStay(m0, m, m1, t, c);
    RootThere(m1, t);
    ChildGonePruned(m0, m, m1, n, t, c, r);
    AllMineSame(m1, n, r, c);
  }

  lemma PrunedParts(m: Mem, n: Mem, t: nat)
    requires t in m.own && Pruned(m, n, t)
    ensures PrunedOwn(m, n, t) && KeptData(m, n)
  {
    hide PrunedOwn, KeptData, Lookup;
  }

  /** Page-table page t outlives what is below its child c. */
  lemma TableStays(m: Mem, n: Mem, t: nat, c: nat, k: nat)
    requires t in m.own && t in m.tabs && c in m.own && Pruned(m, n, c) && m.own[c] == ChildOwner(m.own[t], t, k)
    requires m.own[t].Root? || m.own[t].Mid?
    ensures t != c && t in n.own && n.own[t] == m.own[t] && c in n.own && n.own[c] == m.own[c]
    ensures t in n.tabs && n.tabs[t] == m.tabs[t]
  {
    hide KeptData, Lookup, Frames, A, B;
    assert !Below(m.own[t], c, m.own[c]) && !Below(m.own[c], c, m.own[c]);
  }

  lemma UnlinkKeeps(m: Mem, t: nat, k: nat)
    requires CanUnlink(m, t, k) && FrameOf(m.tabs[t][k]) in m.own
    ensures var n, c := Unlink(m, t, k), FrameOf(m.tabs[t][k]);
            && KeptData(m, n) && (forall x :: Loose(m, x) ==> Loose(n, x))
            && forall x :: x in m.tabs && x != t && x != c ==> x in n.tabs && n.tabs[x] == m.tabs[x]
  {
    hide FrameOf, Valid, Empty;
  }

  lemma RootThere(m: Mem, t: nat)
    requires Inv(m) && t in m.tabs
    ensures t in m.own && IsRoot(m, RootOf(m.own[t], t))
  {
    assert TabOk(m, t);
  }

  lemma RootsStay(m0: Mem, m: Mem, m1: Mem, t: nat, c: nat)
    requires t in m0.own && c in m.own && PrunedOwn(m0, m, t) && PrunedOwn(m, m1, c)
    ensures forall q :: IsRoot(m0, q) ==> IsRoot(m, q) && IsRoot(m1, q)
  {
  }

  lemma AllMineSame(m: Mem, n: Mem, r: nat, c: nat)
    requires AllMine(m, r) && IsRoot(m, r) && SameMaps(m, n) && n.own == m.own - {c} && c in m.own && !m.own[c].Page?
    ensures AllMine(n, r)
  {
    hide Lookup, FrameOf;
    forall u {:trigger Lookup(n, r, u)} | 0 <= u < MAXVPN && Lookup(n, r, u) != 0 ensures Mine(n, r, u) {
      assert Lookup(n, r, u) == Lookup(m, r, u);
      assert Mine(m, r, u);
    }
  }

  lemma ChildGonePruned(m0: Mem, m: Mem, m1: Mem, n: Mem, t: nat, c: nat, r: nat)
    requires t in m0.own && c in m.own && Pruned(m0, m, t) && Pruned(m, m1, c) && PrunedOwn(m0, n, t)
    requires RootOf(m0.own[t], t) == r == RootOf(m.own[c], c) && SameMaps(m1, n)
    requires forall x :: x in m1.tabs && x != t && x != c ==> x in n.tabs && n.tabs[x] == m1.tabs[x]
    requires n.own == m1.own - {c}
    requires forall q :: IsRoot(m0, q) ==> IsRoot(m, q) && IsRoot(m1, q)
    requires KeptData(m1, n)
    ensures Pruned(m0, n, t)
  {
    hide Lookup, KeptData, PrunedOwn, SameMaps;
    KeptDataTrans(m0, m, m1);
    KeptDataTrans(m0, m1, n);
    ChildTabs(m0, m, m1, n, t, c);
    ChildLookups(m0, m, m1, n, t, c, r);
  }

  lemma ChildTabs(m0: Mem, m: Mem, m1: Mem, n: Mem, t: nat, c: nat)
    requires t in m0.own && c in m.own && Pruned(m0, m, t) && Pruned(m, m1, c)
    requires forall x :: x in m1.tabs && x != t && x != c ==> x in n.tabs && n.tabs[x] == m1.tabs[x]
    requires n.own == m1.own - {c}
    ensures forall x :: x in m0.tabs && x in n.own && x != t ==> x in n.tabs && n.tabs[x] == m0.tabs[x]
  {
    hide Lookup, KeptData, Frames, Below;
  }

  lemma ChildLookups(m0: Mem, m: Mem, m1: Mem, n: Mem, t: nat, c: nat, r: nat)
    requires t in m0.own && c in m.own && Pruned(m0, m, t) && Pruned(m, m1, c) && SameMaps(m1, n)
    requires RootOf(m0.own[t], t) == r == RootOf(m.own[c], c)
    requires forall q :: IsRoot(m0, q) ==> IsRoot(m, q) && IsRoot(m1, q)
    ensures forall q, u {:trigger Lookup(n, q, u)} :: IsRoot(m0, q) && q != r && 0 <= u < MAXVPN ==>
              Lookup(n, q, u) == Lookup(m0, q, u)
  {
    hide Lookup, KeptData, PrunedOwn;
    forall q, u {:trigger Lookup(n, q, u)} | IsRoot(m0, q) && q != r && 0 <= u < MAXVPN
      ensures Lookup(n, q, u) == Lookup(m0, q, u)
    {
      assert Lookup(n, q, u) == Lookup(m1, q, u) == Lookup(m, q, u);
    }
  }

  lemma RootGone(m0: Mem, m: Mem, r: nat)
    requires Inv(m0) && Inv(m) && IsRoot(m0, r) && Pruned(m0, m, r) && r in m.tabs && Empty(m.tabs[r])
    ensures Inv(DropRoot(m, r)) && Destroyed(m0, DropRoot(m, r), r)
  {
    hide Lookup, Inv, KeptData, PrunedOwn, Frames, Empty;
    PrunedParts(m0, m, r);
    var n := DropRoot(m, r);
    RootStays(m0, m, r);
    DropRootInv(m, r);
    DropRootKeeps(m, r);
    KeptDataTrans(m0, m, n);
    forall x | x in n.own ensures RootOf(m.own[x], x) != r {
      NothingBelow(m, r, x);
    }
    RootGoneOwn(m0, m, r);
    forall q, u {:trigger Lookup(n, q, u)} | IsRoot(m0, q) && q != r && 0 <= u < MAXVPN
      ensures Lookup(n, q, u) == Lookup(m0, q, u)
    {
      assert Lookup(n, q, u) == Lookup(m, q, u);
    }
  }

  lemma RootStays(m0: Mem, m: Mem, r: nat)
    requires IsRoot(m0, r) && PrunedOwn(m0, m, r)
    ensures forall q :: IsRoot(m0, q) ==> IsRoot(m, q)
  {
    hide Frames;
  }

  lemma DropRootKeeps(m: Mem, r: nat)
    requires r in m.tabs
    ensures KeptData(m, DropRoot(m, r))
  {
  }

  lemma RootGoneOwn(m0: Mem, m: Mem, r: nat)
    requires IsRoot(m0, r) && PrunedOwn(m0, m, r) && Frames(DropRoot(m, r)) == Frames(m) && IsRoot(m, r)
    requires r in m.tabs && forall x :: x in DropRoot(m, r).own ==> RootOf(m.own[x], x) != r
    ensures DestroyedOwn(m0, DropRoot(m, r), r)
  {
    hide Frames;
    FreedNotOwned(m0, DropRoot(m, r), r);
  }

  /** What was owned and is no more is free. */
  lemma FreedNotOwned(m: Mem, n: Mem, r: nat)
    requires Frames(n) == Frames(m)
    ensures forall x :: x in m.own && x !in n.own ==> x in n.free
  {
    forall x | x in m.own && x !in n.own ensures x in n.free {
      assert x in Frames(n);
    }
  }

  lemma AllMineCleared(m0: Mem, m1: Mem, r: nat, n: nat)
    requires AllMine(m0, r) && IsRoot(m0, r) && Cleared(m0, m1, r, 0, n) && Inv(m1) && Inv(m0)
    ensures AllMine(m1, r) && IsRoot(m1, r)
  {
    hide Lookup, FrameOf, Inv;
    assert ClearedOwn(m0, m1, r, 0, n);
    forall u {:trigger Lookup(m1, r, u)} | 0 <= u < MAXVPN && Lookup(m1, r, u) != 0 ensures Mine(m1, r, u) {
      assert Lookup(m1, r, u) == Lookup(m0, r, u);
      assert Mine(m0, r, u);
    }
  }

  lemma StillMine(m0: Mem, m1: Mem, r: nat, v: nat)
    requires Cleared(m0, m1, r, v, v + 1) && IsRoot(m0, r)
    ensures IsRoot(m1, r)
    ensures forall u: nat {:trigger Lookup(m1, r, u)} :: u < MAXVPN && u != v ==>
              Lookup(m1, r, u) == Lookup(m0, r, u) && (Mine(m1, r, u) <==> Mine(m0, r, u))
  {
    hide Lookup, FrameOf, Mine;
    forall u: nat {:trigger Lookup(m1, r, u)} | u < MAXVPN && u != v
      ensures Lookup(m1, r, u) == Lookup(m0, r, u) && (Mine(m1, r, u) <==> Mine(m0, r, u))
    {
      assert Lookup(m1, r, u) == Lookup(m0, r, u);
      MineStays(m0, m1, r, v, u);
    }
  }

  lemma MineStays(m0: Mem, m1: Mem, r: nat, v: nat, u: nat)
    requires Cleared(m0, m1, r, v, v + 1) && u != v && Lookup(m1, r, u) == Lookup(m0, r, u)
    ensures Mine(m1, r, u) <==> Mine(m0, r, u)
  {
    hide Lookup, FrameOf;
    assert ClearedOwn(m0, m1, r, v, v + 1);
  }

  lemma RestMine(m0: Mem, m1: Mem, m2: Mem, r: nat)
    requires IsRoot(m0, r) && Cleared(m0, m1, r, TRAMPOLINE, TRAMPOLINE + 1)
    requires Cleared(m1, m2, r, TRAPFRAME, TRAPFRAME + 1)
    requires forall u :: 0 <= u < MAXVPN && Lookup(m0, r, u) != 0 ==>
               (Mine(m0, r, u) <==> u != TRAMPOLINE && u != TRAPFRAME)
    ensures AllMine(m2, r) && IsRoot(m2, r)
  {
    StillMine(m0, m1, r, TRAMPOLINE);
    StillMine(m1, m2, r, TRAPFRAME);
    hide Lookup, Mine;
    forall u {:trigger Lookup(m2, r, u)} | 0 <= u < MAXVPN && Lookup(m2, r, u) != 0 ensures Mine(m2, r, u) {
      assert u != TRAPFRAME && Lookup(m2, r, u) == Lookup(m1, r, u);
      assert u != TRAMPOLINE && Lookup(m1, r, u) == Lookup(m0, r, u);
    }
  }

  lemma DestroyedAfterClear(m0: Mem, m1: Mem, n: Mem, r: nat, lo: nat, hi: nat)
    requires IsRoot(m0, r) && Cleared(m0, m1, r, lo, hi) && Destroyed(m1, n, r) && Inv(n)
    ensures Destroyed(m0, n, r)
  {
    hide Lookup, Inv;
    assert ClearedOwn(m0, m1, r, lo, hi) && DestroyedOwn(m1, n, r);
    KeptDataTrans(m0, m1, n);
    hide KeptData;
    FreedNotOwned(m0, n, r);
    forall q, u {:trigger Lookup(n, q, u)} | IsRoot(m0, q) && q != r && 0 <= u < MAXVPN
      ensures Lookup(n, q, u) == Lookup(m0, q, u)
    {
      assert IsRoot(m1, q);
      assert Lookup(n, q, u) == Lookup(m1, q, u);
    }
  }

  lemma NewRoot(m0: Mem, m1: Mem)
    requires Inv(m0) && m0.free != [] && m1 == PopFree(m0)
    ensures var r := m0.free[0]; var n := AddRoot(m1, r);
            && Inv(n) && SameMaps(m0, n) && Frames(n) == Frames(m0) && !IsRoot(m0, r) && IsRoot(n, r)
            && forall u :: 0 <= u < MAXVPN ==> Lookup(n, r, u) == 0
  {
    PopFreeInv(m0);
    hide Lookup;
    var n := AddRoot(m1, m0.free[0]);
    AddRootInv(m1, m0.free[0]);
    forall q, u {:trigger Lookup(n, q, u)} | IsRoot(m0, q) && 0 <= u < MAXVPN
      ensures Lookup(n, q, u) == Lookup(m0, q, u)
    {
      assert Lookup(n, q, u) == Lookup(m1, q, u);
    }
  }

  lemma RootPath(m: Mem, r: nat, v: nat)
    requires Inv(m) && IsRoot(m, r) && v < MAXVPN
    ensures OnPath(m, r, v, 2, r)
  {
  }
}
