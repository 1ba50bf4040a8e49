/** malloc, free and morecore of user/umalloc.c. */
module Umalloc {
  import opened UmallocState
  import opened UmallocSteps

  const HEADER := 16
  const MINCORE := 4096

  // ----- sizes

  /** The units malloc asks for: the bytes rounded up, and a header. */
  function Nunits(nbytes: nat): (n: nat) { (nbytes + HEADER - 1) / HEADER + 1 }

  /** What sbrk(int) is given for nu units: the low 32 bits of nu * 16, as a signed number. */
  function SbrkArg(nu: nat): (n: int)
  {
    var low := nu * HEADER % 0x1_0000_0000;
    if low >= 0x8000_0000 then low - 0x1_0000_0000 else low
  }

  /** The request reaches sbrk unchanged exactly below 2 to the 27 units. */
  lemma SbrkArgExact(nu: nat)
    requires nu <= MAXUNITS
    ensures SbrkArg(nu) == nu * HEADER <==> nu < LIMIT
    ensures nu >= LIMIT ==> SbrkArg(nu) == if nu < 0x1000_0000 then nu * HEADER - WRAP else nu * HEADER % WRAP
  {
  }

  /** The units malloc asks for at most, and the number from which on sbrk does not get the request. */
  const MAXUNITS := 0x1000_0001
  const LIMIT := 0x800_0000

  lemma NunitsBound(nbytes: nat)
    requires nbytes < WRAP
    ensures 0 < Nunits(nbytes) <= MAXUNITS
    ensures nbytes + HEADER <= Nunits(nbytes) * HEADER < nbytes + 2 * HEADER
  {
  }

  /** The units morecore(nu) asks for. */
  function Core(nu: nat): (n: nat)
    ensures n >= nu
  {
    if nu < MINCORE then MINCORE else nu
  }

  /** The program break after sys_sbrk(arg), in units; shrinking below zero is ignored. */
  function NewBrk(brk: nat, arg: int): (r: nat)
  {
    if brk + arg / HEADER < 0 then brk else brk + arg / HEADER
  }

  /** The units that sbrk has given after sys_sbrk(arg). */
  ghost function Obtained(own: map<nat, nat>, brk: nat, arg: int): (r: map<nat, nat>)
  {
    if arg >= 0 then own + Units(brk, arg / HEADER) else map u | u in own && u < NewBrk(brk, arg) :: own[u]
  }

  // ----- places on the circle

  /** Steps from place a to place b of a circle of n. */
  function Dist(a: nat, b: nat, n: nat): (d: nat)
    requires a < n && b < n
    ensures d < n && (d == 0 <==> a == b)
  {
    if a <= b then b - a else n - a + b
  }

  function Succ(a: nat, n: nat): (b: nat)
    requires a < n
    ensures b < n
  {
    if a + 1 < n then a + 1 else 0
  }

  lemma DistStep(a: nat, b: nat, n: nat)
    requires a < n && b < n && a != b
    ensures Dist(Succ(a, n), b, n) == Dist(a, b, n) - 1
  {
  }

  /** An address that is no free block has one place on the list. */
  lemma {:induction false} HasPlace(h: Heap, b: nat, k: nat) returns (j: nat)
    requires ListOk(h) && b !in h.list && k < |h.list| && h.list[k] < b
    ensures Place(h, j, b)
    decreases |h.list| - k
  {
    if k + 1 == |h.list| || b < h.list[k + 1] {
      j := k;
    } else {
      j := HasPlace(h, b, k + 1);
    }
  }

  lemma OnePlace(h: Heap, b: nat, i: nat, j: nat)
    requires ListOk(h) && Place(h, j, b) && i < |h.list| && b > BASE && b !in h.list
    ensures LinkOk(h, i)
    ensures h.list[i] < b < Next(h.list, i) ==> i == j
    ensures Next(h.list, i) <= h.list[i] && (b > h.list[i] || b < Next(h.list, i)) ==> i == j
    ensures i == j ==> (h.list[i] < b < Next(h.list, i)) || (Next(h.list, i) <= h.list[i] && b > h.list[i])
  {
    assert LinkOk(h, i);
    Before(h.list, i, j);
    Before(h.list, 0, i);
    if i + 1 < |h.list| {
      Before(h.list, i + 1, j);
      Before(h.list, i, i + 1);
    }
  }

  class Allocator {
    var ptr: map<nat, nat>
    var size: map<nat, Uint>
    var freep: nat
    var brk: nat
    ghost var list: seq<nat>
    ghost var live: map<nat, nat>
    ghost var own: map<nat, nat>

    ghost function Abs(): Heap
      reads this
    {
      Heap(ptr, size, list, live, own)
    }

    ghost predicate Ready()
      reads this
    {
      Inv(Abs()) && freep in list && freep > 0
    }

    ghost predicate Valid()
      reads this
    {
      && Bounded()
      && (if freep == 0 then list == [] && live == map[] && own == map[] else Ready())
    }

    /** Before the first call nothing is set up; the program break is above `base`. */
    constructor (start: nat)
      requires start > BASE
      ensures Valid() && freep == 0 && brk == start && live == map[]
    {
      ptr, size, freep, brk := map[], map[], 0, start;
      list, live, own := [], map[], map[];
    }

    /** The list is a circle through freep, whatever the sizes say. */
    ghost predicate Linked()
      reads this
    {
      ListOk(Abs()) && freep in list && freep > 0
    }

    /** The search of free: the free block before bp in address order.  It ends whichever block it starts at. */
    method Search(bp: nat) returns (p: nat, ghost j: nat)
      requires Linked() && bp > BASE && bp !in list
      ensures Place(Abs(), j, bp) && p == list[j]
      ensures p in list && p < bp && forall x :: x in list && x < bp ==> x <= p
    {
      ghost var h := Abs();
      assert list[0] == BASE;
      hide ListOk, LinkOk, Next, Place;
      ghost var i: nat :| i < |list| && list[i] == freep;
      j := HasPlace(h, bp, 0);
      PlaceBound(h, j, bp);
      PlaceIsLast(h, j, bp);
      p := freep;
      LinkAt(h, i);
      while !(p < bp < ptr[p])
        invariant i < |list| && p == list[i] && p in ptr && ptr[p] == Next(list, i)
        decreases Dist(i, j, |list|)
      {
        OnePlace(h, bp, i, j);
        if p >= ptr[p] && (bp > p || bp < ptr[p]) {
          return;
        }
        DistStep(i, j, |list|);
        LinkAt(h, i);
        i := Succ(i, |list|);
        p := ptr[p];
        LinkAt(h, i);
      }
      OnePlace(h, bp, i, j);
    }

    /** free: the block goes on the list, which stays in address order, and is joined with what it touches.  For
        a block malloc returned the heap stays well formed, with every unit in some block and no two free
        blocks touching, exactly if the joined block has fewer than 2 to the 32 units. */
    method Free(bp: nat) returns (ghost j: nat)
      requires Linked() && bp > BASE && bp !in list && bp in size
      modifies this`ptr, this`size, this`freep, this`list, this`live, this`own
      ensures Linked() && live == old(live) - {bp} && own.Keys == old(own).Keys
      ensures Place(old(Abs()), j, bp) && Abs() == Freed(old(Abs()), j, bp) && freep == old(list)[j]
      ensures old(Ready()) && bp in old(live) ==>
                && (Ready() <==> Joined(old(Abs()), j, bp) < WRAP)
                && (AllCovered(Abs()) <==> Joined(old(Abs()), j, bp) < WRAP)
    {
      hide ListOk, Inv, Freed, Place, Next, SizeUp, PtrUp, Joined, AllCovered;
      ghost var h := Abs();
      var p;
      p, j := Search(bp);
      PlaceBound(h, j, bp);
      FreedList(h, j, bp);
      FreedKeeps(h, j, bp);
      FreedHeaders(h, j, bp);
      HeadersUp(h, bp, Next(list, j));
      FreedExactly(h, j, bp);
      PtrThere(h, j);
      JoinAbove(bp, p);
      JoinBelow(bp, p);
      freep := p;
      list, live, own := Freed(h, j, bp).list, Freed(h, j, bp).live, Freed(h, j, bp).own;
    }

    /** free's join with the block above, and with the one below. */
    method JoinAbove(bp: nat, p: nat)
      requires bp in size && p in ptr && ptr[p] in size && ptr[p] in ptr
      modifies this`ptr, this`size
      ensures size == SizeUp(old(Abs()), bp, old(ptr)[p]) && ptr == PtrUp(old(Abs()), bp, old(ptr)[p])
    {
      if bp + size[bp] == ptr[p] {
        size := size[bp := (size[bp] + size[ptr[p]]) % WRAP];
        ptr := ptr[bp := ptr[ptr[p]]];
      } else {
        ptr := ptr[bp := ptr[p]];
      }
    }

    method JoinBelow(bp: nat, p: nat)
      requires bp in size && p in size && bp in ptr
      modifies this`ptr, this`size
      ensures size == if p + old(size)[p] == bp then old(size)[p := (old(size)[p] + old(size)[bp]) % WRAP]
                      else old(size)
      ensures ptr == if p + old(size)[p] == bp then old(ptr)[p := old(ptr)[bp]] else old(ptr)[p := bp]
    {
      if p + size[p] == bp {
        size := size[p := (size[p] + size[bp]) % WRAP];
        ptr := ptr[p := ptr[bp]];
      } else {
        ptr := ptr[p := bp];
      }
    }

    /** sbrk for n units, which does not refuse, and the header written at what it returns. */
    method Sbrk(n: Uint) returns (hp: nat)
      modifies this`brk, this`size, this`live, this`own
      ensures hp == old(brk) && brk == NewBrk(hp, SbrkArg(n)) && Abs() == Grown(old(Abs()), hp, n)
    {
      hp := brk;
      brk := NewBrk(brk, SbrkArg(n));
      size := size[hp := n];
      live, own := live[hp := n], Obtained(own, hp, SbrkArg(n));
    }

    /** morecore, called when no free block has nu units: if sbrk does not refuse, what it is taken to have given
        is the end of the one free block that now has nu units.  The heap stays well formed exactly below
        2 to the 27 units; from there on that block has units that sbrk did not give. */
    method Morecore(nu: nat, grant: bool) returns (p: nat)
      requires Ready() && Bounded() && 0 < nu <= MAXUNITS && AllSmall(Abs(), nu)
      modifies this
      ensures p == (if SbrkArg(Core(nu)) > 0 && !grant then 0 else freep)
      ensures p == 0 ==> Abs() == old(Abs()) && freep == old(freep) && brk == old(brk)
      ensures p != 0 ==> Linked() && live == old(live) && brk == NewBrk(old(brk), SbrkArg(Core(nu)))
      ensures p != 0 ==> Grew(old(Abs()), Abs(), nu, grant, old(brk))
      ensures p != 0 && nu < LIMIT ==> Ready() && Bounded() && brk == old(brk) + if nu < 4096 then 4096 else nu
    {
      hide Inv, ListOk, Units, Freed, AllSmall, OneBig, Obtained, Grew, Joined, AllCovered, SbrkArg, NewBrk, Grown;
      var n := Core(nu);
      var arg := SbrkArg(n);
      if arg > 0 && !grant {
        return 0;
      }
      ghost var h := Abs();
      LinkedInv(h);
      CoreTop(h, brk, n);
      SbrkGives(h.own, brk, n);
      GrownIs(h, brk, n);
      var hp := Sbrk(n);
      ghost var h1 := Abs();
      ghost var j := Free(hp);
      if nu < LIMIT {
        CoreUnits(hp, nu);
      }
      CoreJoined(h, h1, j, hp, n, nu);
      CoreGrew(h, Abs(), hp, nu, grant);
      p := freep;
    }

    /** malloc's use of free block p, the i-th: all of it, or its tail. */
    method Take(prevp: nat, p: nat, nunits: nat, ghost i: nat) returns (b: nat)
      requires Linked() && 0 < i < |list| && p == list[i] && prevp == list[i - 1] && p in size && size[p] >= nunits > 0
      modifies this`ptr, this`size, this`freep, this`list, this`live, this`own
      ensures b == p + old(size)[p] - nunits && live == old(live)[b := nunits] && own.Keys == old(own).Keys
      ensures freep == prevp
      ensures b in size && size[b] == nunits
      ensures old(Ready()) ==> Ready() && b !in old(live)
    {
      hide ListOk, Inv, Next, TakeWhole, TakeTail;
      ghost var h := Abs();
      LinkAt(h, i);
      LinkAt(h, i - 1);
      TakeWholeIs(h, i);
      TakeTailIs(h, i, nunits);
      TakeFactsIf(h, i, nunits);
      b := p;
      if size[p] == nunits {
        ptr := ptr[prevp := ptr[p]];
        list, live := TakeWhole(h, i).list, live[p := nunits];
      } else {
        size := size[p := size[p] - nunits];
        b := p + size[p];
        size := size[b := nunits];
        live, own := live[b := nunits], TakeTail(h, i, nunits).own;
      }
      freep := prevp;
    }

    /** malloc for every unsigned 32-bit request.  It asks sbrk exactly if no free block is large enough, and fails
        exactly if sbrk then refuses.  The block was not in use, nothing else in use changes and no unit is lost;
        the heap stays well formed exactly unless sbrk was asked for 2 to the 27 units or more: then the block
        has units that sbrk did not give.  A block has room for the bytes after its header, and less than a header
        more. */
    method Malloc(nbytes: nat, grant: bool) returns (r: nat)
      requires Valid() && nbytes < WRAP
      modifies this
      ensures freep != 0
      ensures r == 0 <==> AllSmall(old(Abs()), Nunits(nbytes)) && SbrkArg(Core(Nunits(nbytes))) > 0 && !grant
      ensures r == 0 ==> live == old(live) && own == old(own)
      ensures r != 0 ==> r - 1 !in old(live) && live == old(live)[r - 1 := Nunits(nbytes)]
      ensures r != 0 ==> r - 1 in live && nbytes + HEADER <= live[r - 1] * HEADER < nbytes + 2 * HEADER
      ensures r != 0 && AllSmall(old(Abs()), Nunits(nbytes)) ==>
                own.Keys == Obtained(old(own), old(brk), SbrkArg(Core(Nunits(nbytes)))).Keys
      ensures r != 0 && !AllSmall(old(Abs()), Nunits(nbytes)) ==> own.Keys == old(own).Keys
      ensures Valid() <==> !Lied(old(Abs()), Nunits(nbytes), grant)
      ensures Lied(old(Abs()), Nunits(nbytes), grant) ==> r - 1 == old(brk) && old(brk) + Nunits(nbytes) - 1 !in own
    {
      NunitsBound(nbytes);
      if freep == 0 {
        ptr, size, freep := ptr[BASE := BASE], size[BASE := 0], BASE;
        list := [BASE];
        EmptyInv(Abs());
      }
      r := FirstFit(Nunits(nbytes), grant);
    }

    /** malloc's walk round the circle, with one more lap after morecore. */
    method FirstFit(nunits: nat, grant: bool) returns (r: nat)
      requires Valid() && freep != 0 && 0 < nunits <= MAXUNITS
      modifies this
      ensures freep != 0
      ensures r == 0 <==> AllSmall(old(Abs()), nunits) && SbrkArg(Core(nunits)) > 0 && !grant
      ensures r == 0 ==> Abs() == old(Abs())
      ensures r != 0 ==> Allocated(old(Abs()), Abs(), r - 1, nunits, grant, old(brk))
      ensures Valid() <==> !Lied(old(Abs()), nunits, grant)
    {
      hide Inv, ListOk, Next, AllSmall, Dist, Succ, Lap, Grew, Lied, Allocated, SbrkArg, Core, NewBrk;
      ghost var h0 := Abs();
      ghost var f: nat :| f < |list| && list[f] == freep;
      ghost var k: nat, grown := f, false;
      var prevp := freep;
      LinkedInv(h0);
      LinkAt(h0, k);
      var p := ptr[prevp];
      LapStart(h0, f, nunits);
      while true
        invariant Linked() && live == h0.live
        invariant f < |list| && freep == list[f] && k < |list| && prevp == list[k] && p == list[Succ(k, |list|)]
        invariant !grown ==> Abs() == h0 && brk == old(brk)
        invariant grown ==> Grew(h0, Abs(), nunits, grant, old(brk))
        invariant !grown || nunits < LIMIT ==> Ready() && Bounded()
        invariant Lap(Abs(), f, k, nunits, grown)
        decreases if grown then 0 else 1, Togo(Abs(), f, k, grown)
      {
        ghost var i := Succ(k, |list|);
        LinkAt(Abs(), i);
        LinkAt(Abs(), k);
        if size[p] >= nunits {
          ghost var h := Abs();
          NotBase(h, i, k, nunits);
          r := Take(prevp, p, nunits, i);
          TakenExact(h0, h, Abs(), i, r, nunits, grant, old(brk), grown);
          r := r + 1;
          return;
        }
        if p == freep {
          SamePlace(Abs(), i, f);
          LapEnd(Abs(), f, k, nunits, grown);
          p := Morecore(nunits, grant);
          if p == 0 {
            Refused(h0, nunits);
            return 0;
          }
          f :| 0 <= f < |list| && list[f] == freep;
          k, grown := f, true;
          SecondLap(h0, Abs(), f, nunits, grant, old(brk));
        } else {
          LapStep(Abs(), f, k, nunits, grown);
          k := i;
        }
        LinkAt(Abs(), k);
        prevp := p;
        p := ptr[p];
      }
    }

    /** Everything that sbrk gave lies below the break. */
    ghost predicate Bounded()
      reads this
    {
      brk > BASE && forall u :: u in own ==> u < brk
    }
  }

  /** sbrk is asked for what it does not get: no free block is large enough, and the request has 2 to the 27
      units or more; a refusal is possible only if what it gets instead is positive. */
  ghost predicate Lied(h: Heap, nu: nat, grant: bool)
  {
    AllSmall(h, nu) && nu >= LIMIT && (SbrkArg(Core(nu)) > 0 ==> grant)
  }

  /** No free block has nu units. */
  ghost predicate AllSmall(h: Heap, nu: nat)
  {
    forall i: nat :: i < |h.list| && h.list[i] in h.size ==> h.size[h.list[i]] < nu
  }

  /** The last free block ends at `end` and has nu units; no other has as many. */
  ghost predicate OneBig(h: Heap, nu: nat, end: nat)
  {
    && |h.list| > 0 && Big(h, |h.list| - 1, nu)
    && h.list[|h.list| - 1] + h.size[h.list[|h.list| - 1]] == end
    && forall i: nat :: i < |h.list| - 1 && h.list[i] in h.size ==> h.size[h.list[i]] < nu
  }

  ghost predicate Big(h: Heap, i: int, nu: nat)
  {
    0 <= i < |h.list| && h.list[i] in h.size && h.size[h.list[i]] >= nu
  }

  /** Where the walk is, with prevp the k-th block and freep the f-th: on the first lap all blocks between are
      too small; on the second the last one is large enough and lies ahead. */
  ghost predicate Lap(h: Heap, f: nat, k: nat, nunits: nat, grown: bool)
  {
    && f < |h.list| && k < |h.list|
    && var n := |h.list|;
       if grown then Big(h, n - 1, nunits) && Dist(Succ(k, n), n - 1, n) <= Dist(Succ(k, n), f, n)
       else Seen(h, f, k, nunits)
  }

  ghost function Togo(h: Heap, f: nat, k: nat, grown: bool): (d: nat)
    requires f < |h.list| && k < |h.list|
  {
    var n := |h.list|;
    if grown then Dist(Succ(k, n), n - 1, n) else Dist(Succ(k, n), f, n)
  }

  lemma LapStart(h: Heap, f: nat, nunits: nat)
    requires f < |h.list|
    ensures Lap(h, f, f, nunits, false)
  {
  }

  lemma SecondLap(h0: Heap, h: Heap, f: nat, nunits: nat, grant: bool, brk: nat)
    requires f < |h.list| && Grew(h0, h, nunits, grant, brk)
    ensures Lap(h, f, f, nunits, true)
  {
  }

  lemma LapEnd(h: Heap, f: nat, k: nat, nunits: nat, grown: bool)
    requires Lap(h, f, k, nunits, grown) && Succ(k, |h.list|) == f && h.list[f] in h.size && h.size[h.list[f]] < nunits
    ensures !grown && AllSmall(h, nunits)
  {
    forall i: nat | i < |h.list| && i != f ensures 0 < Dist(f, i, |h.list|) <= Dist(f, k, |h.list|) {
    }
  }

  lemma LapStep(h: Heap, f: nat, k: nat, nunits: nat, grown: bool)
    requires Lap(h, f, k, nunits, grown) && Succ(k, |h.list|) != f
    requires h.list[Succ(k, |h.list|)] in h.size && h.size[h.list[Succ(k, |h.list|)]] < nunits
    ensures Lap(h, f, Succ(k, |h.list|), nunits, grown)
    ensures Togo(h, f, Succ(k, |h.list|), grown) < Togo(h, f, k, grown)
  {
    var i := Succ(k, |h.list|);
    DistStep(i, f, |h.list|);
    if grown {
      DistStep(i, |h.list| - 1, |h.list|);
    } else {
      SeenStep(h, f, k, nunits);
    }
  }

  /** morecore has run: sbrk was asked, did not refuse, and the last free block is the one to take from. */
  ghost predicate Grew(h0: Heap, h: Heap, nu: nat, grant: bool, brk: nat)
  {
    && AllSmall(h0, nu) && (SbrkArg(Core(nu)) > 0 ==> grant) && OneBig(h, nu, brk + Core(nu))
    && h.own.Keys == Obtained(h0.own, brk, SbrkArg(Core(nu))).Keys && (nu >= LIMIT ==> brk + Core(nu) - 1 !in h.own)
  }

  lemma Refused(h: Heap, nu: nat)
    requires SbrkArg(Core(nu)) > 0
    ensures !Lied(h, nu, false)
  {
  }

  /** What malloc leaves: a block of nu units that was not in use, nothing else in use changed, no unit lost;
      if sbrk was lied to, the block starts at the old break and its last unit was never given. */
  ghost predicate Allocated(h0: Heap, h: Heap, b: nat, nu: nat, grant: bool, brk: nat)
  {
    && b !in h0.live && h.live == h0.live[b := nu]
    && h.own.Keys == (if AllSmall(h0, nu) then Obtained(h0.own, brk, SbrkArg(Core(nu))).Keys else h0.own.Keys)
    && (Lied(h0, nu, grant) ==> b == brk && brk + nu - 1 !in h.own)
  }

  /** Taking nu units from block i of h, which is h0 or h0 after morecore. */
  lemma TakenExact(h0: Heap, h: Heap, n: Heap, i: nat, b: nat, nu: nat, grant: bool, brk: nat, grown: bool)
    requires Inv(h0) && brk > BASE && (forall u :: u in h0.own ==> u < brk)
    requires Big(h, i, nu) && nu > 0 && b == h.list[i] + h.size[h.list[i]] - nu && h.live == h0.live
    requires n.live == h.live[b := nu] && n.own.Keys == h.own.Keys && b in n.size && n.size[b] == nu
    requires if grown then Grew(h0, h, nu, grant, brk) else h == h0
    requires !grown || nu < LIMIT ==> b !in h0.live
    ensures Allocated(h0, n, b, nu, grant, brk) && (Lied(h0, nu, grant) <==> grown && nu >= LIMIT)
    ensures AllSmall(h0, nu) <==> grown
    ensures grown ==> (SbrkArg(Core(nu)) > 0 ==> grant)
    ensures Lied(h0, nu, grant) ==> !Inv(n)
  {
    hide Inv, Obtained;
    if grown {
      hide AllSmall;
      TakenFrom(h, i, nu, brk);
      LiveBelow(h0, brk);
      if nu >= LIMIT {
        Broken(n, b, nu);
      }
    }
  }

  /** On the second lap only the last block is taken, and from 4096 units on it is taken at the old break. */
  lemma TakenFrom(h: Heap, i: nat, nu: nat, brk: nat)
    requires OneBig(h, nu, brk + Core(nu)) && Big(h, i, nu)
    ensures i == |h.list| - 1 && h.list[i] + h.size[h.list[i]] == brk + Core(nu)
  {
  }

  /** A block with a unit that sbrk did not give. */
  lemma Broken(h: Heap, b: nat, nu: nat)
    requires b in h.live && b > BASE && b in h.size && h.size[b] == nu > 0 && b + nu - 1 !in h.own
    ensures !Inv(h)
  {
    assert OwnOk(h) ==> IsBlock(h, b) && In(h, b, b + nu - 1);
  }

  lemma LiveBelow(h: Heap, brk: nat)
    requires Inv(h) && forall u :: u in h.own ==> u < brk
    ensures brk !in h.live
  {
    assert OwnOk(h);
    assert brk in h.live ==> IsBlock(h, brk) && In(h, brk, brk);
  }

  lemma LinkedInv(h: Heap)
    requires Inv(h)
    ensures ListOk(h)
  {
  }

  lemma TakeFactsIf(h: Heap, i: nat, nunits: nat)
    requires ListOk(h) && 0 < i < |h.list| && h.list[i] in h.size && h.size[h.list[i]] >= nunits > 0
    ensures Inv(h) ==> h.list[i] !in h.live
    ensures Inv(h) && h.size[h.list[i]] == nunits ==> Inv(TakeWhole(h, i)) && h.list[i - 1] in TakeWhole(h, i).list
    ensures Inv(h) && h.size[h.list[i]] > nunits ==>
              Inv(TakeTail(h, i, nunits)) && h.list[i] + h.size[h.list[i]] - nunits !in h.live
  {
    if Inv(h) {
      hide Inv;
      TakeFacts(h, i, nunits);
    }
  }

  lemma TakeWholeIs(h: Heap, i: nat)
    requires 0 < i < |h.list| && h.list[i] in h.size
    ensures var t := TakeWhole(h, i);
            && t.ptr == h.ptr[h.list[i - 1] := Next(h.list, i)] && t.size == h.size && t.own == h.own
            && t.live == h.live[h.list[i] := h.size[h.list[i]]]
  {
  }

  lemma TakeTailIs(h: Heap, i: nat, nu: nat)
    requires i < |h.list| && h.list[i] in h.size && 0 < nu <= h.size[h.list[i]]
    ensures var t, q := TakeTail(h, i, nu), h.list[i] + h.size[h.list[i]] - nu;
            && t.ptr == h.ptr && t.list == h.list && t.size == h.size[h.list[i] := h.size[h.list[i]] - nu][q := nu]
            && t.live == h.live[q := nu] && t.own.Keys == h.own.Keys
  {
  }

  lemma TakeFacts(h: Heap, i: nat, nunits: nat)
    requires Inv(h) && 0 < i < |h.list| && h.list[i] in h.size && h.size[h.list[i]] >= nunits > 0
    ensures h.list[i] in h.ptr && h.ptr[h.list[i]] == Next(h.list, i) && h.list[i] !in h.live
    ensures h.size[h.list[i]] == nunits ==> Inv(TakeWhole(h, i)) && h.list[i - 1] in TakeWhole(h, i).list
    ensures h.size[h.list[i]] > nunits ==>
              Inv(TakeTail(h, i, nunits)) && h.list[i] + h.size[h.list[i]] - nunits !in h.live
  {
    assert ListOk(h) && OwnOk(h);
    LinkAt(h, i);
    hide ListOk, OwnOk;
    if h.size[h.list[i]] == nunits {
      TakeWholeInv(h, i);
      assert TakeWhole(h, i).list[i - 1] == h.list[i - 1];
    } else {
      TailFresh(h, i, nunits);
      TakeTailList(h, i, nunits);
      TakeTailOwn(h, i, nunits);
    }
    LiveNotListed(h, i);
  }

  lemma LiveNotListed(h: Heap, i: nat)
    requires Inv(h) && i < |h.list|
    ensures h.list[i] !in h.live
  {
    assert OwnOk(h);
    assert h.list[i] in h.list;
  }

  /** The first call of malloc: base alone on the list. */
  lemma EmptyInv(h: Heap)
    requires h.list == [BASE] && h.live == map[] && h.own == map[] && BASE in h.ptr && h.ptr[BASE] == BASE
    requires BASE in h.size && h.size[BASE] == 0
    ensures Inv(h)
  {
    assert LinkOk(h, 0) && Gap(h, 0);
    assert ListOk(h) && OwnOk(h) && Coalesced(h);
  }

  /** The blocks after the f-th up to and including the k-th are too small; for k == f none has been seen. */
  ghost predicate Seen(h: Heap, f: nat, k: nat, nunits: nat)
  {
    && f < |h.list| && k < |h.list|
    && forall x {:trigger h.list[x]} ::
         0 <= x < |h.list| && 0 < Dist(f, x, |h.list|) <= Dist(f, k, |h.list|) && h.list[x] in h.size ==>
           h.size[h.list[x]] < nunits
  }

  lemma SeenStep(h: Heap, f: nat, k: nat, nunits: nat)
    requires Seen(h, f, k, nunits) && Succ(k, |h.list|) != f && h.list[Succ(k, |h.list|)] in h.size
    requires h.size[h.list[Succ(k, |h.list|)]] < nunits
    ensures Seen(h, f, Succ(k, |h.list|), nunits)
  {
    var n := |h.list|;
    forall x {:trigger h.list[x]} | 0 <= x < n && 0 < Dist(f, x, n) <= Dist(f, Succ(k, n), n) && h.list[x] in h.size
      ensures h.size[h.list[x]] < nunits
    {
      DistBack(f, k, x, n);
    }
  }

  lemma DistBack(f: nat, k: nat, x: nat, n: nat)
    requires f < n && k < n && x < n && Succ(k, n) != f
    ensures Dist(f, Succ(k, n), n) == Dist(f, k, n) + 1
    ensures Dist(f, x, n) == Dist(f, Succ(k, n), n) ==> x == Succ(k, n)
  {
  }

  lemma SamePlace(h: Heap, i: nat, f: nat)
    requires ListOk(h) && i < |h.list| && f < |h.list| && h.list[i] == h.list[f]
    ensures i == f
  {
    assert ListOk(h);
    Before(h.list, i, f);
  }

  /** base is never large enough, and any other block has its predecessor just before it. */
  lemma NotBase(h: Heap, i: nat, k: nat, nunits: nat)
    requires ListOk(h) && k < |h.list| && i == Succ(k, |h.list|) && h.list[i] in h.size
    requires h.size[h.list[i]] >= nunits > 0
    ensures 0 < i && k == i - 1
  {
    assert ListOk(h);
  }

  /** The heap once sbrk has answered for n units and their header is written. */
  ghost function Grown(h: Heap, b: nat, n: Uint): (r: Heap)
  {
    h.(size := h.size[b := n], live := h.live[b := n], own := Obtained(h.own, b, SbrkArg(n)))
  }

  lemma GrownIs(h: Heap, b: nat, n: Uint)
    ensures var r := Grown(h, b, n);
            && r.list == h.list && b in r.live && r.live - {b} == h.live - {b} && b in r.size
            && r.own == Obtained(h.own, b, SbrkArg(n))
  {
    hide Obtained;
  }

  /** The break moves by what is asked for, and by a page of blocks at least. */
  lemma CoreUnits(b: nat, nu: nat)
    requires 0 < nu < LIMIT
    ensures NewBrk(b, SbrkArg(Core(nu))) == b + if nu < 4096 then 4096 else nu
  {
    SbrkArgExact(Core(nu));
  }

  /** What sbrk gives for n units: all of them exactly below 2 to the 27; never the last one from there on. */
  lemma SbrkGives(own: map<nat, nat>, b: nat, n: nat)
    requires 0 < n <= MAXUNITS && forall u :: u in own ==> u < b
    ensures n < LIMIT ==> Obtained(own, b, SbrkArg(n)) == own + Units(b, n) && NewBrk(b, SbrkArg(n)) == b + n
    ensures n >= LIMIT ==> b + n - 1 !in Obtained(own, b, SbrkArg(n))
  {
    SbrkArgExact(n);
  }

  lemma CoreTop(h: Heap, b: nat, n: Uint)
    requires Inv(h) && b > BASE && 0 < n <= MAXUNITS && forall u :: u in h.own ==> u < b
    ensures ListOk(Grown(h, b, n)) && b !in h.list && b !in h.live && (forall k :: 0 <= k < |h.list| ==> h.list[k] < b)
    ensures n < LIMIT ==> Inv(Grown(h, b, n)) && forall u :: u in Grown(h, b, n).own ==> u < b + n
  {
    LiveBelow(h, b);
    SbrkGives(h.own, b, n);
    AddCoreList(h, b, n);
    AddCoreOwn(h, b, n);
    assert ListOk(h);
    hide OwnOk;
    forall k | 0 <= k < |h.list| ensures h.list[k] < b && LinkOk(Grown(h, b, n), k) {
      ListBelow(h, b, k);
      assert LinkOk(h, k);
    }
  }

  /** The new block, joined with the last free one if that ends at the break, is the one large block. */
  lemma CoreJoined(h: Heap, h1: Heap, j: nat, b: nat, n: Uint, nu: nat)
    requires ListOk(h) && AllSmall(h, nu) && nu <= n <= MAXUNITS && h1 == Grown(h, b, n) && ListOk(h1)
    requires Place(h1, j, b) && b > BASE && (forall k :: 0 <= k < |h.list| ==> h.list[k] < b)
    ensures Joined(h1, j, b) < WRAP && OneBig(Freed(h1, j, b), nu, b + n)
  {
    hide LinkOk, Sorted, ListOk, Insert, Freed, Joined, Touches, Grown, OneBig;
    CoreLast(h, h1, j, b, n);
    JoinSizes(h1, j, b);
    InList(h, j);
    CoreSize(h, h1, j, b, n, nu);
    CoreList(h, h1, j, b, n);
    FreedSizes(h1, j, b);
    AllDifferent(h);
    CoreBig(h, h1, Freed(h1, j, b), j, b, n, nu);
  }

  lemma CoreGrew(h: Heap, r: Heap, b: nat, nu: nat, grant: bool)
    requires AllSmall(h, nu) && (SbrkArg(Core(nu)) > 0 ==> grant) && OneBig(r, nu, b + Core(nu)) && 0 < nu <= MAXUNITS
    requires r.own.Keys == Obtained(h.own, b, SbrkArg(Core(nu))).Keys && forall u :: u in h.own ==> u < b
    ensures Grew(h, r, nu, grant, b)
  {
    hide AllSmall, OneBig, Obtained, SbrkArg;
    SbrkGives(h.own, b, Core(nu));
  }

  lemma CoreLast(h: Heap, h1: Heap, j: nat, b: nat, n: Uint)
    requires ListOk(h) && h1 == Grown(h, b, n) && Place(h1, j, b)
    requires b > BASE && (forall k :: 0 <= k < |h.list| ==> h.list[k] < b)
    ensures j == |h.list| - 1 && Next(h1.list, j) == BASE && h1.list == h.list && b in h1.size && h1.size[b] == n
    ensures h1.size == h.size[b := n] && b !in h.list && BASE in h1.size && h1.size[BASE] == 0
  {
    hide LinkOk, Sorted;
  }

  lemma AllDifferent(h: Heap)
    requires ListOk(h)
    ensures forall k, l :: 0 <= k < l < |h.list| ==> h.list[k] != h.list[l]
  {
  }

  lemma CoreSize(h: Heap, h1: Heap, j: nat, b: nat, n: Uint, nu: nat)
    requires AllSmall(h, nu) && nu <= n <= MAXUNITS && h1.list == h.list && h1.size == h.size[b := n]
    requires j < |h.list| && Next(h1.list, j) == BASE < b && h.list[j] in h.size && h.list[j] != b
    requires BASE in h1.size
    ensures Joined(h1, j, b) == n + (if Low(h1, j, b) then h.size[h.list[j]] else 0) < WRAP
  {
  }

  lemma CoreList(h: Heap, h1: Heap, j: nat, b: nat, n: Uint)
    requires ListOk(h1) && Place(h1, j, b) && b in h1.size && h1.list == h.list && j == |h.list| - 1
    requires Next(h1.list, j) == BASE < b
    ensures Freed(h1, j, b).list == if Low(h1, j, b) then h.list else h.list + [b]
  {
    hide ListOk, LinkOk, Sorted, Joined;
    JoinSizes(h1, j, b);
    var g := Insert(h1, j, b);
    assert g.list == h.list + [b];
    assert Without(g.list, j + 1) == h.list;
  }

  lemma CoreBig(h: Heap, h1: Heap, r: Heap, j: nat, b: nat, n: Uint, nu: nat)
    requires AllSmall(h, nu) && nu <= n && h1.size == h.size[b := n] && b !in h.list && j == |h.list| - 1
    requires h.list[j] in h.size && h1.list == h.list && r.size.Keys == h1.size.Keys
    requires r.list == if Low(h1, j, b) then h.list else h.list + [b]
    requires var x := if Low(h1, j, b) then h.list[j] else b;
             && r.size[x] == n + (if Low(h1, j, b) then h.size[h.list[j]] else 0)
             && forall d :: d in h1.size && d != b && d != x ==> r.size[d] == h1.size[d]
    requires forall k, l :: 0 <= k < l < |h.list| ==> h.list[k] != h.list[l]
    ensures OneBig(r, nu, b + n)
  {
  }

  lemma PlaceIsLast(h: Heap, j: nat, b: nat)
    requires ListOk(h) && Place(h, j, b)
    ensures forall x :: x in h.list && x < b ==> x <= h.list[j]
  {
    assert forall k :: j < k < |h.list| ==> h.list[j + 1] <= h.list[k];
  }

  lemma PlaceBound(h: Heap, j: nat, b: nat)
    requires Place(h, j, b)
    ensures j < |h.list| && h.list[j] < b
  {
  }

  lemma PtrThere(h: Heap, j: nat)
    requires ListOk(h) && j < |h.list|
    ensures h.list[j] in h.ptr && h.list[j] in h.size && h.ptr[h.list[j]] == Next(h.list, j) && h.list[j] > 0
  {
    assert LinkOk(h, j);
    Before(h.list, 0, j);
  }

  lemma FreedExactly(h: Heap, j: nat, b: nat)
    requires ListOk(h) && Place(h, j, b) && b in h.size
    ensures Inv(h) && b in h.live ==>
              && (Inv(Freed(h, j, b)) <==> Joined(h, j, b) < WRAP)
              && (AllCovered(Freed(h, j, b)) <==> Joined(h, j, b) < WRAP)
  {
    if Inv(h) && b in h.live {
      hide Inv;
      FreedExact(h, j, b);
    }
  }

  lemma FreedKeeps(h: Heap, j: nat, b: nat)
    requires ListOk(h) && Place(h, j, b) && b in h.size
    ensures var n := Freed(h, j, b); n.live == h.live - {b} && n.own.Keys == h.own.Keys && h.list[j] in n.list
  {
    hide ListOk, Freed;
    FreedMembers(h, j, b);
  }

  lemma HeadersUp(h: Heap, b: nat, c: nat)
    requires b in h.size && c in h.size && c in h.ptr
    ensures SizeUp(h, b, c) == if b + h.size[b] == c then h.size[b := (h.size[b] + h.size[c]) % WRAP] else h.size
    ensures PtrUp(h, b, c) == if b + h.size[b] == c then h.ptr[b := h.ptr[c]] else h.ptr[b := c]
    ensures forall p :: p in h.size && p != b ==> SizeUp(h, b, c)[p] == h.size[p]
  {
  }

  lemma LinkAt(h: Heap, i: nat)
    requires ListOk(h) && i < |h.list|
    ensures h.list[i] in h.ptr && h.list[i] in h.size && h.list[i] > 0
    ensures h.ptr[h.list[i]] == Next(h.list, i) && Next(h.list, i) == h.list[Succ(i, |h.list|)]
  {
    assert LinkOk(h, i);
    Before(h.list, 0, i);
  }

  lemma LiveFacts(h: Heap, b: nat)
    requires Inv(h) && b in h.live
    ensures ListOk(h) && OwnOk(h) && b > BASE && b in h.size && b !in h.list && h.size[b] == h.live[b] > 0
    ensures h.list[0] < b
  {
    assert ListOk(h) && OwnOk(h);
    assert IsBlock(h, b);
  }

  /** The headers after the upper and after the lower join. */
  function SizeUp(h: Heap, b: nat, c: nat): map<nat, Uint>
    requires b in h.size && c in h.size
  {
    if b + h.size[b] == c then h.size[b := (h.size[b] + h.size[c]) % WRAP] else h.size
  }

  function PtrUp(h: Heap, b: nat, c: nat): map<nat, nat>
    requires b in h.size && c in h.ptr
  {
    if b + h.size[b] == c then h.ptr[b := h.ptr[c]] else h.ptr[b := c]
  }

  /** The heap after the upper join. */
  function JoinUp(h: Heap, j: nat, b: nat): (n: Heap)
    requires j < |h.list|
  {
    var h1 := Insert(h, j, b);
    if Touches(h1, j + 1) then Merge(h1, j + 1) else h1
  }

  lemma UpHeaders(h: Heap, j: nat, b: nat)
    requires ListOk(h) && Place(h, j, b) && b in h.size
    ensures var p, c := h.list[j], Next(h.list, j);
            && p in h.size && b in h.size && c in h.size && c in h.ptr && p != b
            && var n := JoinUp(h, j, b);
            n.size == SizeUp(h, b, c) && n.ptr == PtrUp(h, b, c)[p := b] && |n.list| > j + 1 && n.list[j] == p &&
                  n.list[j + 1] == b
  {
    hide ListOk, Sorted, Joined;
    PlaceNotListed(h, j, b);
    JoinSizes(h, j, b);
    LinkAt(h, j);
    LinkAt(h, Succ(j, |h.list|));
    var h1 := Insert(h, j, b);
    if Touches(h1, j + 1) {
      assert h1.ptr[h1.list[j + 2]] == h.ptr[Next(h.list, j)];
    }
  }

  lemma FreedHeaders(h: Heap, j: nat, b: nat)
    requires ListOk(h) && Place(h, j, b) && b in h.size
    ensures var p, c := h.list[j], Next(h.list, j);
            && p in h.size && b in h.size && c in h.size && c in h.ptr && p != b
            && var s, q := SizeUp(h, b, c), PtrUp(h, b, c);
            && Freed(h, j, b).size == (if p + h.size[p] == b then s[p := (s[p] + s[b]) % WRAP] else s)
            && Freed(h, j, b).ptr == (if p + h.size[p] == b then q[p := q[b]] else q[p := b])
  {
    hide ListOk, Next, Insert;
    UpHeaders(h, j, b);
    var p, c := h.list[j], Next(h.list, j);
    var n := JoinUp(h, j, b);
    assert Touches(n, j) <==> p + h.size[p] == b;
  }
}
