/** The free list of user/umalloc.c is canonical: which units are free decides the list, whatever calls of
    malloc and free led there. */
module UmallocCanonical {
  import opened UmallocState
  import opened UmallocSteps
  import opened Umalloc

  /** Unit u lies in a free block. */
  ghost predicate FreeUnit(h: Heap, u: int)
  {
    u >= 0 && u in h.own && h.own[u] in h.list
  }

  lemma InBlock(h: Heap, b: nat, u: nat)
    requires Inv(h) && b in h.list && b > BASE && b in h.size && b <= u < b + h.size[b]
    ensures u in h.own && h.own[u] == b
  {
    assert OwnOk(h);
    assert IsBlock(h, b) && In(h, b, u);
  }

  /** The free block of a free unit. */
  lemma FreeBlock(h: Heap, u: nat)
    requires Inv(h) && FreeUnit(h, u)
    ensures var c := h.own[u]; c in h.list && c > BASE && c in h.size && c <= u < c + h.size[c]
  {
    assert OwnOk(h);
    assert IsBlock(h, h.own[u]) && In(h, h.own[u], u);
  }

  /** Free blocks start exactly where a run of free units does. */
  lemma StartsRun(h: Heap, b: nat)
    requires Inv(h) && b > BASE
    ensures b in h.list <==> FreeUnit(h, b) && !FreeUnit(h, b - 1)
  {
    hide Inv;
    if b in h.list {
      ListedBlock(h, b);
      InBlock(h, b, b);
      if FreeUnit(h, b - 1) {
        FreeBlock(h, b - 1);
        Apart(h, h.own[b - 1], b);
      }
    }
    if FreeUnit(h, b) {
      FreeBlock(h, b);
      if h.own[b] < b {
        InBlock(h, h.own[b], b - 1);
      }
    }
  }

  lemma ListedBlock(h: Heap, b: nat)
    requires Inv(h) && b in h.list && b > BASE
    ensures b in h.size && h.size[b] > 0 && IsBlock(h, b)
  {
    assert ListOk(h) && OwnOk(h);
    var i :| 0 <= i < |h.list| && h.list[i] == b;
    InList(h, i);
    assert IsBlock(h, b);
  }

  /** A free block ends before the next one starts, with a unit in between that is not free. */
  lemma Apart(h: Heap, c: nat, b: nat)
    requires Inv(h) && c in h.list && b in h.list && BASE < c < b
    ensures c in h.size && c + h.size[c] < b
  {
    ListedBlock(h, c);
    ListedBlock(h, b);
    assert ListOk(h) && OwnOk(h) && Coalesced(h);
    var i :| 0 <= i < |h.list| && h.list[i] == c;
    var j :| 0 <= j < |h.list| && h.list[j] == b;
    hide Sorted, LinkOk;
    Before(h.list, i, j);
    Disjoint(h, c, b);
    if i + 1 < j {
      Before(h.list, i, i + 1);
      Before(h.list, i + 1, j);
      Before(h.list, 0, i + 1);
      ListedBlock(h, h.list[i + 1]);
      Disjoint(h, c, h.list[i + 1]);
    }
    assert Gap(h, i);
  }

  /** The units of live blocks, and so the free ones, are a matter of `live` and of which units there are. */
  lemma FreeUnitOf(h: Heap, u: nat)
    requires Inv(h) && u in h.own
    ensures FreeUnit(h, u) <==> forall c :: c in h.live ==> !(c <= u < c + h.live[c])
  {
    assert OwnOk(h);
    assert IsBlock(h, h.own[u]) && In(h, h.own[u], u);
    forall c | c in h.live && c <= u < c + h.live[c] ensures h.own[u] == c && c !in h.list {
      assert IsBlock(h, c) && In(h, c, u);
    }
  }

  lemma SameFreeUnits(g: Heap, h: Heap, u: int)
    requires Inv(g) && Inv(h) && g.own.Keys == h.own.Keys && g.live == h.live
    ensures FreeUnit(g, u) <==> FreeUnit(h, u)
  {
    hide Inv;
    if u >= 0 && u in g.own {
      assert u in g.own.Keys && u in h.own;
      FreeUnitOf(g, u);
      FreeUnitOf(h, u);
    } else {
      assert u >= 0 ==> u !in g.own.Keys && u !in h.own;
    }
  }

  lemma SameBlocks(g: Heap, h: Heap, b: nat)
    requires Inv(g) && Inv(h) && g.own.Keys == h.own.Keys && g.live == h.live && b in g.list
    ensures b in h.list
  {
    assert ListOk(g) && ListOk(h);
    var i :| 0 <= i < |g.list| && g.list[i] == b;
    Before(g.list, 0, i);
    hide Inv, ListOk;
    if b > BASE {
      StartsRun(g, b);
      StartsRun(h, b);
      SameFreeUnits(g, h, b);
      SameFreeUnits(g, h, b - 1);
    }
  }

  lemma NoLonger(g: Heap, h: Heap, b: nat)
    requires Inv(g) && Inv(h) && g.own.Keys == h.own.Keys && g.live == h.live && b in g.list && b in h.list && b > BASE
    ensures b in g.size && b in h.size && g.size[b] <= h.size[b]
  {
    hide Inv;
    ListedBlock(g, b);
    ListedBlock(h, b);
    var e := b + h.size[b];
    if g.size[b] > h.size[b] {
      InBlock(g, b, e);
      assert FreeUnit(g, e);
      SameFreeUnits(g, h, e);
      InBlock(h, b, e - 1);
      FreeBlock(h, e);
      StartsRun(h, e);
      if h.own[e] != e {
        InBlock(h, h.own[e], e - 1);
      }
    }
  }

  /** Two heaps with the same units and the same blocks in use have the same free list. */
  lemma Canonical(g: Heap, h: Heap)
    requires Inv(g) && Inv(h) && g.own.Keys == h.own.Keys && g.live == h.live
    ensures g.list == h.list
    ensures forall i :: 0 <= i < |g.list| ==>
              g.list[i] in g.size && g.list[i] in h.size && g.size[g.list[i]] == h.size[g.list[i]]
  {
    assert ListOk(g) && ListOk(h);
    forall b | b in g.list || b in h.list ensures b in g.list && b in h.list {
      if b in g.list {
        SameBlocks(g, h, b);
      } else {
        SameBlocks(h, g, b);
      }
    }
    SameSorted(g.list, h.list);
    forall i | 0 <= i < |g.list|
      ensures g.list[i] in g.size && g.list[i] in h.size && g.size[g.list[i]] == h.size[g.list[i]]
    {
      Before(g.list, 0, i);
      if i > 0 {
        NoLonger(g, h, g.list[i]);
        NoLonger(h, g, g.list[i]);
      }
    }
  }

  lemma {:induction false} SameSorted(a: seq<nat>, b: seq<nat>)
    requires Sorted(a) && Sorted(b) && (forall x :: x in a <==> x in b)
    ensures a == b
  {
    if a == [] {
      Members(b);
    } else {
      assert a[0] in a;
      var i :| 0 <= i < |b| && b[i] == a[0];
      assert b[0] in b;
      var j :| 0 <= j < |a| && a[j] == b[0];
      Before(a, 0, j);
      Before(b, 0, i);
      assert a[0] == b[0];
      Tail(a);
      Tail(b);
      SameSorted(a[1..], b[1..]);
      assert a == [a[0]] + a[1..] && b == [b[0]] + b[1..];
    }
  }

  lemma Members(b: seq<nat>)
    ensures b == [] || exists x :: x in b
  {
    if |b| > 0 {
      assert b[0] in b;
    }
  }

  lemma Tail(a: seq<nat>)
    requires Sorted(a) && a != []
    ensures Sorted(a[1..]) && forall x :: x in a[1..] <==> x in a && x != a[0]
  {
    forall x | x in a && x != a[0] ensures x in a[1..] {
      var i :| 0 <= i < |a| && a[i] == x;
      assert a[1..][i - 1] == x;
    }
  }

  /** A block of nunits from the i-th free block: the whole of it or its tail. */
  function Taken(h: Heap, i: nat, nunits: nat): (n: Heap)
    requires 0 < i < |h.list| && h.list[i] in h.size && h.size[h.list[i]] >= nunits
  {
    if h.size[h.list[i]] == nunits then TakeWhole(h, i) else TakeTail(h, i, nunits)
  }

  /** What free joins it with makes up the block it was taken from. */
  lemma WholeJoined(h: Heap, i: nat, j: nat)
    requires Inv(h) && 0 < i < |h.list| && h.list[i] in h.size && Place(TakeWhole(h, i), j, h.list[i])
    ensures Joined(TakeWhole(h, i), j, h.list[i]) == h.size[h.list[i]]
  {
    assert ListOk(h) && Coalesced(h);
    var t, b := TakeWhole(h, i), h.list[i];
    assert Gap(h, i - 1) && Gap(h, i) && LinkOk(h, i - 1);
    Before(h.list, i - 1, i);
    Before(h.list, 0, i);
    if i + 1 < |h.list| {
      InList(h, i + 1);
      Before(h.list, i, i + 1);
    }
    WithoutSorted(h.list, i);
    PlaceIs(t.list, i - 1, j, b);
    hide OwnOk, LinkOk, Sorted;
  }

  lemma TailJoined(h: Heap, i: nat, nunits: nat, j: nat)
    requires Inv(h) && CanTakeTail(h, i, nunits)
    requires Place(TakeTail(h, i, nunits), j, h.list[i] + h.size[h.list[i]] - nunits)
    ensures Joined(TakeTail(h, i, nunits), j, h.list[i] + h.size[h.list[i]] - nunits) == h.size[h.list[i]]
  {
    assert ListOk(h) && OwnOk(h) && Coalesced(h);
    var t, x := TakeTail(h, i, nunits), h.list[i];
    var b := x + h.size[x] - nunits;
    assert Gap(h, i);
    Before(h.list, 0, i);
    if i + 1 < |h.list| {
      InList(h, i + 1);
      Before(h.list, i, i + 1);
      Before(h.list, 0, i + 1);
      Disjoint(h, x, h.list[i + 1]);
    }
    PlaceIs(h.list, i, j, b);
    hide OwnOk, LinkOk, Sorted;
    InList(h, 0);
  }

  lemma PlaceIs(list: seq<nat>, i: nat, j: nat, b: nat)
    requires Sorted(list) && i < |list| && list[i] < b && (i + 1 < |list| ==> b < list[i + 1])
    requires j < |list| && list[j] < b && (j + 1 < |list| ==> b < list[j + 1])
    ensures i == j
  {
    assert forall k :: i < k < |list| ==> list[i + 1] <= list[k];
    assert forall k :: j < k < |list| ==> list[j + 1] <= list[k];
  }

  /** Freeing the block that was just taken puts the free list back as it was. */
  lemma TakeThenFree(h: Heap, i: nat, nunits: nat, j: nat)
    requires Inv(h) && 0 < i < |h.list| && h.list[i] in h.size && h.size[h.list[i]] >= nunits > 0
    requires j < |Taken(h, i, nunits).list| && Place(Taken(h, i, nunits), j, h.list[i] + h.size[h.list[i]] - nunits)
    ensures var b := h.list[i] + h.size[h.list[i]] - nunits; Freed(Taken(h, i, nunits), j, b).list == h.list
  {
    hide Inv, Freed, ListOk, Taken, Joined, Place;
    var t := Taken(h, i, nunits);
    var b := h.list[i] + h.size[h.list[i]] - nunits;
    TakenInv(h, i, nunits);
    if h.size[h.list[i]] == nunits {
      WholeJoined(h, i, j);
    } else {
      TailJoined(h, i, nunits, j);
    }
    LiveFacts(t, b);
    FreedInv(t, j, b);
    FreedKeeps(t, j, b);
    Canonical(h, Freed(t, j, b));
  }

  lemma TakenInv(h: Heap, i: nat, nunits: nat)
    requires Inv(h) && 0 < i < |h.list| && h.list[i] in h.size && h.size[h.list[i]] >= nunits > 0
    ensures var t, b := Taken(h, i, nunits), h.list[i] + h.size[h.list[i]] - nunits;
            Inv(t) && b in t.live && t.live - {b} == h.live && t.own.Keys == h.own.Keys
    ensures Taken(h, i, nunits) ==
            if h.size[h.list[i]] == nunits then TakeWhole(h, i) else TakeTail(h, i, nunits)
  {
    hide Inv, ListOk;
    TakeFacts(h, i, nunits);
  }
}
