/** A run of user/umalloc.c in which free loses units: 33 blocks of malloc(2 to the 31 - 32) are freed in address
    order, and with the last one the 32-bit size of the joined block wraps. */
module UmallocWrap {
  import opened UmallocState
  import opened UmallocSteps
  import opened Umalloc

  const COUNT := 33
  /** The units of one block: the largest request that reaches sbrk unchanged. */
  const EACH: nat := 0x7FF_FFFF

  /** Blocks k to m of those that start at b are in use. */
  function InUse(b: nat, k: nat, m: nat): (r: map<nat, nat>)
    requires k <= m
    ensures forall x :: x in r ==> b + k * EACH <= x < b + m * EACH
    decreases m - k
  {
    if k == m then map[] else InUse(b, k + 1, m)[b + k * EACH := EACH]
  }

  lemma {:induction false} InUseMore(b: nat, k: nat, m: nat)
    requires k <= m
    ensures InUse(b, k, m + 1) == InUse(b, k, m)[b + m * EACH := EACH]
    decreases m - k
  {
    if k < m {
      InUseMore(b, k + 1, m);
    } else {
      assert InUse(b, k + 1, k + 1) == map[];
    }
  }

  lemma InUseFirst(b: nat, k: nat, m: nat)
    requires k < m
    ensures var x, r := b + k * EACH, InUse(b, k, m); x in r && r[x] == EACH && r - {x} == InUse(b, k + 1, m)
  {
    assert b + k * EACH !in InUse(b, k + 1, m);
  }

  /** m blocks at b have been obtained and the first k of them freed. */
  ghost predicate At(h: Heap, b: nat, k: nat, m: nat)
  {
    && k <= m && b > BASE && Inv(h) && h.live == InUse(b, k, m)
    && h.list == (if k == 0 then [BASE] else [BASE, b]) && (k > 0 ==> b in h.size && h.size[b] == k * EACH)
    && forall u :: u in h.own <==> b <= u < b + m * EACH
  }

  /** malloc when nothing is free: morecore's block is put on the list and taken whole. */
  ghost function Malloced(h: Heap, brk: nat): (r: Heap)
    requires Inv(h) && h.list == [BASE] && brk > BASE && forall u :: u in h.own ==> u < brk
  {
    CoreFreed(h, brk);
    TakeWhole(Freed(AddCore(h, brk, EACH), 0, brk), 1)
  }

  lemma CoreFreed(h: Heap, brk: nat)
    requires Inv(h) && h.list == [BASE] && brk > BASE && forall u :: u in h.own ==> u < brk
    ensures var r := Freed(AddCore(h, brk, EACH), 0, brk);
            Inv(r) && r.list == [BASE, brk] && r.live == h.live && brk in r.size && r.size[brk] == EACH
    ensures forall u :: u in Freed(AddCore(h, brk, EACH), 0, brk).own <==> u in h.own || brk <= u < brk + EACH
  {
    hide Units, Inv, Freed, Joined;
    var c := AddCore(h, brk, EACH);
    CoreReady(h, brk);
    FreedInv(c, 0, brk);
    FreedSizes(c, 0, brk);
    FreedMembers(c, 0, brk);
    FreedShape(c, brk, 0, 0, brk);
  }

  lemma CoreReady(h: Heap, brk: nat)
    requires Inv(h) && h.list == [BASE] && brk > BASE && forall u :: u in h.own ==> u < brk
    ensures var c := AddCore(h, brk, EACH);
            && Inv(c) && ListOk(c) && Place(c, 0, brk) && brk in c.live && c.live - {brk} == h.live
            && Joined(c, 0, brk) == EACH
  {
    hide Units, OwnOk, Coalesced;
    var c := AddCore(h, brk, EACH);
    AddCoreList(h, brk, EACH);
    AddCoreOwn(h, brk, EACH);
    LiveBelow(h, brk);
    BaseSize(h);
    assert Next(c.list, 0) == BASE;
  }

  lemma MallocStep(h: Heap, b: nat, m: nat)
    requires At(h, b, 0, m)
    ensures At(Malloced(h, b + m * EACH), b, 0, m + 1)
  {
    hide Inv, Freed, InUse, Joined, Units;
    var brk := b + m * EACH;
    CoreFreed(h, brk);
    var g := Freed(AddCore(h, brk, EACH), 0, brk);
    TakeWholeInv(g, 1);
    InUseMore(b, 0, m);
    assert Without([BASE, brk], 1) == [BASE];
  }

  /** Freeing the next block in address order joins it with those freed before. */
  lemma FreeStep(h: Heap, b: nat, k: nat, m: nat)
    requires At(h, b, k, m) && k < m
    ensures var j := if k == 0 then 0 else 1;
            && Place(h, j, b + k * EACH) && b + k * EACH in h.live && Joined(h, j, b + k * EACH) == (k + 1) * EACH
            && ((k + 1) * EACH < WRAP ==> At(Freed(h, j, b + k * EACH), b, k + 1, m))
            && b in Freed(h, j, b + k * EACH).size && Freed(h, j, b + k * EACH).size[b] == (k + 1) * EACH % WRAP
  {
    var x, j := b + k * EACH, if k == 0 then 0 else 1;
    hide ListOk, OwnOk, Coalesced, InUse;
    InUseFirst(b, k, m);
    LiveFacts(h, x);
    PtrThere(h, 0);
    BaseSize(h);
    FreedSizes(h, j, x);
    FreedMembers(h, j, x);
    assert Joined(h, j, x) == (k + 1) * EACH;
    FreedIsNext(h, b, k, m, j, x);
  }

  lemma BaseSize(h: Heap)
    requires ListOk(h)
    ensures BASE in h.size && h.size[BASE] == 0
  {
  }

  lemma FreedIsNext(h: Heap, b: nat, k: nat, m: nat, j: nat, x: nat)
    requires At(h, b, k, m) && k < m && j == (if k == 0 then 0 else 1) && x == b + k * EACH && x in h.live
    requires Place(h, j, x)
    requires h.live - {x} == InUse(b, k + 1, m) && Joined(h, j, x) == (k + 1) * EACH
    ensures (k + 1) * EACH < WRAP ==> At(Freed(h, j, x), b, k + 1, m)
  {
    hide Inv, ListOk, InUse, Joined, Freed;
    InUseFirst(b, k, m);
    LiveFacts(h, x);
    FreedSizes(h, j, x);
    FreedKeeps(h, j, x);
    if (k + 1) * EACH < WRAP {
      FreedInv(h, j, x);
      FreedShape(h, b, k, j, x);
    }
  }

  lemma FreedShape(h: Heap, b: nat, k: nat, j: nat, x: nat)
    requires ListOk(h) && x in h.size && Place(h, j, x) && x == b + k * EACH && h.size[x] == EACH && b > BASE
    requires if k == 0 then h.list == [BASE] && j == 0
             else h.list == [BASE, b] && j == 1 && b in h.size && h.size[b] == k * EACH
    ensures Freed(h, j, x).list == [BASE, b]
  {
    JoinSizes(h, j, x);
    hide ListOk;
    assert Next(h.list, j) == BASE;
  }

  lemma Empty(b: nat) returns (h: Heap)
    requires b > BASE
    ensures At(h, b, 0, 0)
  {
    h := Heap(map[BASE := BASE], map[BASE := 0], [BASE], map[], map[]);
    EmptyInv(h);
  }

  /** Such a heap is reached by malloc and free alone. */
  lemma {:induction false} Reached(b: nat, k: nat, m: nat) returns (h: Heap)
    requires b > BASE && k <= m <= COUNT && k < COUNT
    ensures At(h, b, k, m)
    decreases m + k
  {
    hide Inv, Freed, InUse, Joined, Malloced;
    if k > 0 {
      var g := Reached(b, k - 1, m);
      FreeStep(g, b, k - 1, m);
      h := Freed(g, if k == 1 then 0 else 1, b + (k - 1) * EACH);
    } else if m > 0 {
      var g := Reached(b, 0, m - 1);
      MallocStep(g, b, m - 1);
      h := Malloced(g, b + (m - 1) * EACH);
    } else {
      h := Empty(b);
    }
  }

  /** Freeing the last of the 33 blocks leaves a free block with 2 to the 32 units too few, and the heap is no
      longer well formed. */
  lemma UnitsLost(b: nat) returns (h: Heap)
    requires b > BASE
    ensures At(h, b, COUNT - 1, COUNT)
    ensures var n := Freed(h, 1, b + (COUNT - 1) * EACH);
            && !Inv(n) && b in n.size && n.size[b] == 0x7FF_FFDF == COUNT * EACH - WRAP
            && exists u :: u in h.own && !Covered(n, u)
  {
    hide Inv, Freed, InUse, Joined, Covered, Place;
    h := Reached(b, COUNT - 1, COUNT);
    FreeStep(h, b, COUNT - 1, COUNT);
    FreedExact(h, 1, b + (COUNT - 1) * EACH);
    var u := LostUnit(h, 1, b + (COUNT - 1) * EACH);
  }
}
