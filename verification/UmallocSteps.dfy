/** The changes malloc and free make to the heap. */
module UmallocSteps {
  import opened UmallocState

  /** Blocks do not overlap. */
  lemma Disjoint(h: Heap, b: nat, c: nat)
    requires OwnOk(h) && IsBlock(h, b) && IsBlock(h, c) && b < c
    ensures b + h.size[b] <= c
  {
    assert In(h, c, c);
    assert c < b + h.size[b] ==> In(h, b, c);
  }

  lemma OwnIntro(h: Heap)
    requires forall b :: IsBlock(h, b) ==> h.size[b] > 0
    requires forall b, u {:trigger In(h, b, u)} :: IsBlock(h, b) && In(h, b, u) ==> u in h.own && h.own[u] == b
    requires forall u :: u in h.own ==> IsBlock(h, h.own[u]) && In(h, h.own[u], u)
    requires forall b :: b in h.live ==> IsBlock(h, b) && b !in h.list && h.live[b] == h.size[b]
    ensures OwnOk(h)
  {
    hide IsBlock, In;
  }

  lemma BaseParts(h: Heap)
    requires Base(h)
    ensures ListOk(h) && OwnOk(h) && |h.list| > 0 && h.list[0] == BASE
  {
    hide OwnOk;
  }

  // ----- free: the block goes on the list

  function Inserted(list: seq<nat>, j: nat, b: nat): (r: seq<nat>)
    requires j < |list|
    ensures |r| == |list| + 1 && forall i :: 0 <= i < |r| ==>
              r[i] == if i <= j then list[i] else if i == j + 1 then b else list[i - 1]
  {
    list[..j + 1] + [b] + list[j + 1..]
  }

  /** Live block b put on the list after the j-th. */
  function Insert(h: Heap, j: nat, b: nat): (n: Heap)
    requires j < |h.list|
  {
    h.(ptr := h.ptr[b := Next(h.list, j)][h.list[j] := b], list := Inserted(h.list, j, b), live := h.live - {b})
  }

  /** Between the j-th block and the next in address order. */
  ghost predicate Place(h: Heap, j: nat, b: nat)
  {
    j < |h.list| && h.list[j] < b && (j + 1 < |h.list| ==> b < h.list[j + 1])
  }

  lemma Before(list: seq<nat>, i: nat, j: nat)
    requires Sorted(list) && i < |list| && j < |list|
    ensures (i < j <==> list[i] < list[j]) && (i == j <==> list[i] == list[j])
  {
  }

  lemma PlaceNotListed(h: Heap, j: nat, b: nat)
    requires ListOk(h) && Place(h, j, b)
    ensures b !in h.list && b > BASE
  {
    forall i | 0 <= i < |h.list| ensures h.list[i] != b {
      Before(h.list, i, j);
      if j + 1 < |h.list| {
        Before(h.list, j + 1, i);
      }
    }
    Before(h.list, 0, j);
  }

  lemma InsertLink(h: Heap, j: nat, b: nat, i: nat)
    requires ListOk(h) && Place(h, j, b) && b in h.size && i < |h.list| + 1
    ensures LinkOk(Insert(h, j, b), i)
  {
    PlaceNotListed(h, j, b);
    hide Sorted;
    var k := if i <= j then i else i - 1;
    assert LinkOk(h, k) && LinkOk(h, j);
    Before(h.list, k, j);
  }

  lemma InsertSorted(h: Heap, j: nat, b: nat)
    requires ListOk(h) && Place(h, j, b)
    ensures Sorted(Inserted(h.list, j, b))
  {
    hide Sorted;
    var r := Inserted(h.list, j, b);
    forall x, y | 0 <= x < y < |r| ensures r[x] < r[y] {
      var i, k := if x <= j then x else x - 1, if y <= j then y else y - 1;
      Before(h.list, i, k);
      Before(h.list, i, j);
      Before(h.list, j, k);
      if j + 1 < |h.list| {
        Before(h.list, j + 1, k);
      }
    }
    assert Sorted(r) by { SortedIntro(r); }
  }

  lemma SortedIntro(r: seq<nat>)
    requires forall x, y :: 0 <= x < y < |r| ==> r[x] < r[y]
    ensures Sorted(r)
  {
  }

  lemma InsertList(h: Heap, j: nat, b: nat)
    requires ListOk(h) && Place(h, j, b) && b in h.size
    ensures ListOk(Insert(h, j, b))
  {
    hide Sorted, LinkOk;
    var n := Insert(h, j, b);
    InsertSorted(h, j, b);
    forall i {:trigger LinkOk(n, i)} | 0 <= i < |n.list| ensures LinkOk(n, i) {
      InsertLink(h, j, b, i);
    }
  }

  lemma InsertOwn(h: Heap, j: nat, b: nat)
    requires Base(h) && Place(h, j, b) && b in h.live
    ensures OwnOk(Insert(h, j, b))
  {
    var n := Insert(h, j, b);
    InsertBlocks(h, j, b);
    forall c, u {:trigger In(n, c, u)} | IsBlock(n, c) && In(n, c, u) ensures u in n.own && n.own[u] == c {
      assert In(h, c, u);
    }
    forall u | u in n.own ensures IsBlock(n, n.own[u]) && In(n, n.own[u], u) {
      assert In(h, h.own[u], u);
    }
    forall c | c in n.live ensures c !in n.list {
      assert forall i :: 0 <= i < |n.list| ==> n.list[i] == b || n.list[i] in h.list;
    }
  }

  lemma InsertBlocks(h: Heap, j: nat, b: nat)
    requires Base(h) && j < |h.list| && b in h.live
    ensures forall c :: IsBlock(Insert(h, j, b), c) <==> IsBlock(h, c)
  {
    InsertMembers(h, j, b);
  }

  // ----- free: adjacent blocks become one

  function Without(list: seq<nat>, k: nat): (r: seq<nat>)
    requires k < |list|
    ensures |r| == |list| - 1 && forall i :: 0 <= i < |r| ==> r[i] == if i < k then list[i] else list[i + 1]
  {
    list[..k] + list[k + 1..]
  }

  function Relabel(own: map<nat, nat>, lo: nat, hi: nat, b: nat): (r: map<nat, nat>)
    ensures r.Keys == own.Keys && forall u :: u in own ==> r[u] == if lo <= u < hi then b else own[u]
  {
    map u | u in own :: if lo <= u < hi then b else own[u]
  }

  /** Block i of the list takes over the next one, which it touches; the sum of their sizes wraps. */
  function Merge(h: Heap, i: nat): (n: Heap)
    requires i + 1 < |h.list| && h.list[i] in h.size && h.list[i + 1] in h.size && h.list[i + 1] in h.ptr
  {
    var b, c := h.list[i], h.list[i + 1];
    h.(size := h.size[b := (h.size[b] + h.size[c]) % WRAP], ptr := h.ptr[b := h.ptr[c]],
       list := Without(h.list, i + 1), own := Relabel(h.own, c, c + h.size[c], b))
  }

  ghost predicate CanMerge(h: Heap, i: nat)
  {
    0 < i && i + 1 < |h.list| && h.list[i] in h.size && h.list[i + 1] in h.size && h.list[i + 1] in h.ptr &&
          h.list[i] + h.size[h.list[i]] == h.list[i + 1]
  }

  lemma WithoutSorted(list: seq<nat>, k: nat)
    requires Sorted(list) && k < |list|
    ensures Sorted(Without(list, k))
  {
  }

  lemma MergeLink(h: Heap, i: nat, k: nat)
    requires ListOk(h) && CanMerge(h, i) && k < |h.list| - 1
    ensures LinkOk(Merge(h, i), k)
  {
    hide Sorted;
    var x := if k <= i then k else k + 1;
    assert LinkOk(h, x) && LinkOk(h, i) && LinkOk(h, i + 1);
    Before(h.list, x, i);
  }

  lemma MergeList(h: Heap, i: nat)
    requires ListOk(h) && CanMerge(h, i)
    ensures ListOk(Merge(h, i))
  {
    hide Sorted, LinkOk;
    var n := Merge(h, i);
    Before(h.list, 0, i);
    WithoutSorted(h.list, i + 1);
    forall k {:trigger LinkOk(n, k)} | 0 <= k < |n.list| ensures LinkOk(n, k) {
      MergeLink(h, i, k);
    }
  }

  lemma WithoutMembers(list: seq<nat>, k: nat)
    requires Sorted(list) && k < |list|
    ensures forall c :: c in Without(list, k) <==> c in list && c != list[k]
  {
    var r := Without(list, k);
    forall c | c in list && c != list[k] ensures c in r {
      var i :| 0 <= i < |list| && list[i] == c;
      assert r[if i < k then i else i - 1] == c;
    }
    forall c | c in r ensures c in list && c != list[k] {
      var i :| 0 <= i < |r| && r[i] == c;
      Before(list, if i < k then i else i + 1, k);
    }
  }

  lemma MergeOwn(h: Heap, i: nat)
    requires Base(h) && CanMerge(h, i) && h.size[h.list[i]] + h.size[h.list[i + 1]] < WRAP
    ensures OwnOk(Merge(h, i))
  {
    hide LinkOk, Sorted, ListOk, OwnOk, Merged, Relabel, Without, In;
    var n := Merge(h, i);
    var b, c := h.list[i], h.list[i + 1];
    MergedHere(h, i);
    forall d | IsBlock(n, d) ensures n.size[d] > 0 {
      MergeSize(h, n, b, c, d);
    }
    forall d, u {:trigger In(n, d, u)} | IsBlock(n, d) && In(n, d, u) ensures u in n.own && n.own[u] == d {
      MergeIn(h, n, b, c, d, u);
    }
    forall u | u in n.own ensures IsBlock(n, n.own[u]) && In(n, n.own[u], u) {
      MergeOf(h, n, b, c, u);
    }
    forall d | d in n.live ensures IsBlock(n, d) && d !in n.list && n.live[d] == n.size[d] {
      MergeLive(h, n, b, c, d);
    }
    OwnIntro(n);
  }

  lemma MergedHere(h: Heap, i: nat)
    requires Base(h) && CanMerge(h, i) && h.size[h.list[i]] + h.size[h.list[i + 1]] < WRAP
    ensures Merged(h, Merge(h, i), h.list[i], h.list[i + 1])
  {
    hide LinkOk, Sorted, Relabel, Without, ListOk;
    BaseParts(h);
    SortedOf(h);
    WithoutMembers(h.list, i + 1);
    Before(h.list, 0, i);
    Before(h.list, i, i + 1);
    assert h.list[i] in h.list && h.list[i + 1] in h.list;
  }

  /** Only the two blocks and their units are affected. */
  ghost predicate Merged(h: Heap, n: Heap, b: nat, c: nat)
  {
    && OwnOk(h) && IsBlock(h, b) && IsBlock(h, c) && b + h.size[b] == c && n.live == h.live
    && h.size[b] + h.size[c] < WRAP
    && n.size == h.size[b := h.size[b] + h.size[c]] && n.own == Relabel(h.own, c, c + h.size[c], b)
    && (forall d :: d in n.list <==> d in h.list && d != c) && b in n.list && c !in h.live && b !in h.live
  }

  lemma MergeSize(h: Heap, n: Heap, b: nat, c: nat, d: nat)
    requires Merged(h, n, b, c) && IsBlock(n, d)
    ensures n.size[d] > 0
  {
    assert IsBlock(h, d);
  }

  lemma MergeLive(h: Heap, n: Heap, b: nat, c: nat, d: nat)
    requires Merged(h, n, b, c) && d in n.live
    ensures IsBlock(n, d) && d !in n.list && n.live[d] == n.size[d]
  {
    assert IsBlock(h, d);
  }

  lemma MergeIn(h: Heap, n: Heap, b: nat, c: nat, d: nat, u: nat)
    requires Merged(h, n, b, c) && IsBlock(n, d) && In(n, d, u)
    ensures u in n.own && n.own[u] == d
  {
    assert OwnOk(h);
    if d != b {
      assert In(h, d, u) && IsBlock(h, d);
      assert h.own[u] == d && !In(h, c, u);
    } else {
      assert In(h, b, u) || In(h, c, u);
    }
  }

  lemma MergeOf(h: Heap, n: Heap, b: nat, c: nat, u: nat)
    requires Merged(h, n, b, c) && u in n.own
    ensures IsBlock(n, n.own[u]) && In(n, n.own[u], u)
  {
    assert OwnOk(h);
    assert In(h, h.own[u], u) && IsBlock(h, h.own[u]);
    assert c <= u < c + h.size[c] ==> In(h, c, u);
    assert h.own[u] == c ==> In(h, c, u);
  }

  // ----- malloc

  /** The i-th free block handed out whole. */
  function TakeWhole(h: Heap, i: nat): (n: Heap)
    requires 0 < i < |h.list| && h.list[i] in h.size
  {
    h.(ptr := h.ptr[h.list[i - 1] := Next(h.list, i)], list := Without(h.list, i),
          live := h.live[h.list[i] := h.size[h.list[i]]])
  }

  lemma TakeWholeLink(h: Heap, i: nat, k: nat)
    requires ListOk(h) && 0 < i < |h.list| && h.list[i] in h.size && k < |h.list| - 1
    ensures LinkOk(TakeWhole(h, i), k)
  {
    hide Sorted;
    var x := if k < i then k else k + 1;
    assert LinkOk(h, x) && LinkOk(h, i - 1) && LinkOk(h, i);
    Before(h.list, x, i - 1);
  }

  lemma TakeWholeInv(h: Heap, i: nat)
    requires Inv(h) && 0 < i < |h.list| && h.list[i] in h.size
    ensures Inv(TakeWhole(h, i))
  {
    hide LinkOk, Gap, OwnOk, Sorted;
    BaseParts(h);
    var n := TakeWhole(h, i);
    Before(h.list, 0, i);
    SortedOf(h);
    WithoutSorted(h.list, i);
    forall k {:trigger LinkOk(n, k)} | 0 <= k < |n.list| ensures LinkOk(n, k) {
      TakeWholeLink(h, i, k);
    }
    forall k | 0 <= k < |n.list| ensures Gap(n, k) {
      TakeWholeGap(h, i, k);
    }
    TakeWholeOwn(h, i);
  }

  lemma TakeWholeOwn(h: Heap, i: nat)
    requires Base(h) && 0 < i < |h.list| && h.list[i] in h.size
    ensures OwnOk(TakeWhole(h, i))
  {
    hide LinkOk, Sorted, ListOk;
    BaseParts(h);
    var n := TakeWhole(h, i);
    SortedOf(h);
    Before(h.list, 0, i);
    WithoutMembers(h.list, i);
    assert IsBlock(h, h.list[i]);
    forall d, u {:trigger In(n, d, u)} | IsBlock(n, d) && In(n, d, u) ensures u in n.own && n.own[u] == d {
      assert In(h, d, u) && IsBlock(h, d);
    }
    forall u | u in n.own ensures IsBlock(n, n.own[u]) && In(n, n.own[u], u) {
      assert In(h, h.own[u], u) && IsBlock(h, h.own[u]);
    }
  }

  lemma TakeWholeGap(h: Heap, i: nat, k: nat)
    requires Inv(h) && 0 < i < |h.list| && h.list[i] in h.size && k < |h.list| - 1
    ensures Gap(TakeWhole(h, i), k)
  {
    hide Sorted;
    var x := if k < i then k else k + 1;
    assert LinkOk(h, x) && h.list[x] in h.size && Gap(h, x);
    if i + 1 < |h.list| {
      Before(h.list, 0, i + 1);
    }
    if k == i - 1 && i + 1 < |h.list| && k > 0 {
      Before(h.list, 0, k);
      Before(h.list, 0, i);
      Before(h.list, k, i);
      Before(h.list, i, i + 1);
      assert LinkOk(h, k) && LinkOk(h, i) && LinkOk(h, i + 1);
      Disjoint(h, h.list[k], h.list[i]);
    }
  }

  /** The last nu units of the i-th free block handed out. */
  function TakeTail(h: Heap, i: nat, nu: nat): (n: Heap)
    requires i < |h.list| && h.list[i] in h.size && nu <= h.size[h.list[i]]
  {
    var b := h.list[i];
    var q := b + h.size[b] - nu;
    h.(size := h.size[b := h.size[b] - nu][q := nu], live := h.live[q := nu], own := Relabel(h.own, q, q + nu, q))
  }

  ghost predicate CanTakeTail(h: Heap, i: nat, nu: nat)
  {
    0 < i < |h.list| && h.list[i] in h.size && 0 < nu < h.size[h.list[i]]
  }

  /** A unit inside a block is not the start of another. */
  lemma NotInside(h: Heap, b: nat, q: nat)
    requires OwnOk(h) && IsBlock(h, b) && In(h, b, q) && b != q
    ensures !IsBlock(h, q)
  {
    assert IsBlock(h, q) ==> In(h, q, q);
  }

  /** The tail's first unit is no header. */
  lemma TailFresh(h: Heap, i: nat, nu: nat)
    requires Base(h) && CanTakeTail(h, i, nu)
    ensures var q := h.list[i] + h.size[h.list[i]] - nu;
            IsBlock(h, h.list[i]) && In(h, h.list[i], q) && q !in h.list && q !in h.live && q > BASE
  {
    assert ListOk(h) && OwnOk(h);
    hide LinkOk, Sorted;
    Before(h.list, 0, i);
    var b := h.list[i];
    var q := b + h.size[b] - nu;
    NotInside(h, b, q);
    forall k | 0 <= k < |h.list| ensures h.list[k] in h.size {
      InList(h, k);
    }
  }

  lemma InList(h: Heap, k: nat)
    requires ListOk(h) && k < |h.list|
    ensures h.list[k] in h.size && h.list[k] in h.ptr
  {
    assert LinkOk(h, k);
  }

  lemma TakeTailList(h: Heap, i: nat, nu: nat)
    requires Inv(h) && CanTakeTail(h, i, nu)
    ensures ListOk(TakeTail(h, i, nu)) && Coalesced(TakeTail(h, i, nu))
  {
    hide Sorted, OwnOk, Coalesced;
    BaseParts(h);
    TailFresh(h, i, nu);
    var n := TakeTail(h, i, nu);
    Before(h.list, 0, i);
    forall k {:trigger LinkOk(n, k)} | 0 <= k < |n.list| ensures LinkOk(n, k) {
      assert LinkOk(h, k);
    }
    assert ListOk(n);
    TakeTailGaps(h, i, nu);
  }

  lemma TakeTailGaps(h: Heap, i: nat, nu: nat)
    requires Inv(h) && CanTakeTail(h, i, nu)
    ensures Coalesced(TakeTail(h, i, nu))
  {
    hide Sorted, OwnOk, LinkOk;
    BaseParts(h);
    TailFresh(h, i, nu);
    var n := TakeTail(h, i, nu);
    Before(h.list, 0, i);
    forall k | 0 <= k < |n.list| ensures Gap(n, k) {
      InList(h, k);
      assert Gap(h, k);
      Before(h.list, k, i);
      if k == i && i + 1 < |h.list| {
        Before(h.list, i, i + 1);
        Before(h.list, 0, i + 1);
        InList(h, i + 1);
        Disjoint(h, h.list[i], h.list[i + 1]);
      }
    }
  }

  lemma TakeTailOwn(h: Heap, i: nat, nu: nat)
    requires Base(h) && CanTakeTail(h, i, nu)
    ensures OwnOk(TakeTail(h, i, nu))
  {
    hide LinkOk, Sorted, ListOk, OwnOk, Tailed, In;
    var n := TakeTail(h, i, nu);
    var b := h.list[i];
    var q := b + h.size[b] - nu;
    TailedHere(h, i, nu);
    forall d | IsBlock(n, d) ensures n.size[d] > 0 {
      TailSize(h, n, b, q, nu, d);
    }
    forall d, u {:trigger In(n, d, u)} | IsBlock(n, d) && In(n, d, u) ensures u in n.own && n.own[u] == d {
      TailIn(h, n, b, q, nu, d, u);
    }
    forall u | u in n.own ensures IsBlock(n, n.own[u]) && In(n, n.own[u], u) {
      TailOf(h, n, b, q, nu, u);
    }
    forall d | d in n.live ensures IsBlock(n, d) && d !in n.list && n.live[d] == n.size[d] {
      TailLive(h, n, b, q, nu, d);
    }
    OwnIntro(n);
  }

  lemma TailedHere(h: Heap, i: nat, nu: nat)
    requires Base(h) && CanTakeTail(h, i, nu)
    ensures Tailed(h, TakeTail(h, i, nu), h.list[i], h.list[i] + h.size[h.list[i]] - nu, nu)
  {
    hide LinkOk, Sorted, ListOk;
    BaseParts(h);
    TailFresh(h, i, nu);
    assert h.list[i] in h.list;
  }

  /** Only the block and its tail are affected. */
  ghost predicate Tailed(h: Heap, n: Heap, b: nat, q: nat, nu: nat)
  {
    && OwnOk(h) && IsBlock(h, b) && 0 < nu < h.size[b] && q == b + h.size[b] - nu && n.list == h.list && q !in h.list
    && q !in h.live && q > BASE && b !in h.live
    && n.size == h.size[b := h.size[b] - nu][q := nu] && n.own == Relabel(h.own, q, q + nu, q)
    && n.live == h.live[q := nu]
  }

  lemma TailSize(h: Heap, n: Heap, b: nat, q: nat, nu: nat, d: nat)
    requires Tailed(h, n, b, q, nu) && IsBlock(n, d)
    ensures n.size[d] > 0
  {
    assert d != b && d != q ==> IsBlock(h, d);
  }

  lemma TailLive(h: Heap, n: Heap, b: nat, q: nat, nu: nat, d: nat)
    requires Tailed(h, n, b, q, nu) && d in n.live
    ensures IsBlock(n, d) && d !in n.list && n.live[d] == n.size[d]
  {
    assert d != q ==> d in h.live && IsBlock(h, d);
  }

  lemma TailIn(h: Heap, n: Heap, b: nat, q: nat, nu: nat, d: nat, u: nat)
    requires Tailed(h, n, b, q, nu) && IsBlock(n, d) && In(n, d, u)
    ensures u in n.own && n.own[u] == d
  {
    assert OwnOk(h);
    if d == q {
      assert In(h, b, u);
    } else {
      assert In(h, d, u) && IsBlock(h, d);
      assert q <= u < q + nu ==> In(h, b, u);
    }
  }

  lemma TailOf(h: Heap, n: Heap, b: nat, q: nat, nu: nat, u: nat)
    requires Tailed(h, n, b, q, nu) && u in n.own
    ensures IsBlock(n, n.own[u]) && In(n, n.own[u], u)
  {
    assert OwnOk(h);
    assert In(h, h.own[u], u) && IsBlock(h, h.own[u]);
    assert q <= u < q + nu ==> In(h, b, u);
  }

  // ----- morecore

  /** The units of a block of n units at b. */
  function Units(b: nat, n: nat): (r: map<nat, nat>)
    ensures forall u :: u in r <==> b <= u < b + n
    ensures forall u :: u in r ==> r[u] == b
  {
    if n == 0 then map[] else Units(b, n - 1)[b + n - 1 := b]
  }

  /** nu new units at b, as one block in use. */
  function AddCore(h: Heap, b: nat, nu: Uint): (n: Heap)
  {
    h.(size := h.size[b := nu], live := h.live[b := nu], own := h.own + Units(b, nu))
  }

  /** Everything on the list lies below b. */
  lemma ListBelow(h: Heap, b: nat, k: nat)
    requires Base(h) && b > BASE && (forall u :: u in h.own ==> u < b) && k < |h.list|
    ensures h.list[k] < b
  {
    assert ListOk(h) && OwnOk(h);
    Before(h.list, 0, k);
    InList(h, k);
    assert k > 0 ==> IsBlock(h, h.list[k]) && In(h, h.list[k], h.list[k]);
  }

  lemma AddCoreList(h: Heap, b: nat, nu: Uint)
    requires Inv(h) && b > BASE && forall u :: u in h.own ==> u < b
    ensures ListOk(AddCore(h, b, nu)) && Coalesced(AddCore(h, b, nu)) && b !in h.list
  {
    assert ListOk(h) && Coalesced(h);
    hide Sorted, OwnOk, Units;
    var n := AddCore(h, b, nu);
    forall k | 0 <= k < |h.list| ensures h.list[k] < b && LinkOk(n, k) && Gap(n, k) {
      ListBelow(h, b, k);
      assert LinkOk(h, k) && Gap(h, k);
    }
  }

  lemma AddCoreOwn(h: Heap, b: nat, nu: Uint)
    requires Base(h) && b > BASE && nu > 0 && b !in h.list && forall u :: u in h.own ==> u < b
    ensures OwnOk(AddCore(h, b, nu))
  {
    hide ListOk, Units;
    BaseParts(h);
    var n := AddCore(h, b, nu);
    forall c | c in h.live ensures c != b {
      assert IsBlock(h, c) && In(h, c, c);
    }
    forall d, u {:trigger In(n, d, u)} | IsBlock(n, d) && In(n, d, u) ensures u in n.own && n.own[u] == d {
      assert d != b ==> IsBlock(h, d) && In(h, d, u);
    }
    forall u | u in n.own ensures IsBlock(n, n.own[u]) && In(n, n.own[u], u) {
      assert u in h.own ==> In(h, h.own[u], u) && IsBlock(h, h.own[u]) && u < b;
    }
  }

  // ----- free as a whole

  /** All free blocks but the x-th and y-th keep a gap. */
  ghost predicate GapsBut(h: Heap, x: nat, y: nat)
  {
    forall i :: 0 <= i < |h.list| && i != x && i != y ==> Gap(h, i)
  }

  lemma InsertGaps(h: Heap, j: nat, b: nat)
    requires Inv(h) && Place(h, j, b) && b in h.live
    ensures GapsBut(Insert(h, j, b), j, j + 1)
  {
    assert Coalesced(h);
    var n := Insert(h, j, b);
    forall i | 0 <= i < |n.list| && i != j && i != j + 1 ensures Gap(n, i) {
      assert Gap(h, if i < j then i else i - 1);
    }
  }

  lemma MergeGaps(h: Heap, i: nat, x: nat)
    requires ListOk(h) && CanMerge(h, i) && h.size[h.list[i]] + h.size[h.list[i + 1]] < WRAP && GapsBut(h, i, x)
    requires (x == i || x + 1 == i)
    ensures if x == i then Coalesced(Merge(h, i)) else GapsBut(Merge(h, i), x, x)
  {
    hide Sorted;
    var n := Merge(h, i);
    forall k | 0 <= k < |n.list| && (k != x || x == i) ensures Gap(n, k) {
      var y := if k < i then k else k + 1;
      assert LinkOk(h, y) && LinkOk(h, i) && Gap(h, y);
      Before(h.list, y, i);
    }
  }

  /** free(b), with the j-th free block before it: on the list, joined with what it touches. */
  function Freed(h: Heap, j: nat, b: nat): (n: Heap)
    requires j < |h.list|
  {
    var h1 := Insert(h, j, b);
    var h2 := if Touches(h1, j + 1) then Merge(h1, j + 1) else h1;
    if Touches(h2, j) then Merge(h2, j) else h2
  }

  predicate Touches(h: Heap, i: nat)
  {
    i + 1 < |h.list| && h.list[i] in h.size && h.list[i + 1] in h.size && h.list[i + 1] in h.ptr &&
          h.list[i] + h.size[h.list[i]] == h.list[i + 1]
  }

  lemma NoTouch(h: Heap, i: nat)
    requires ListOk(h) && i < |h.list| && !Touches(h, i)
    ensures Gap(h, i)
  {
    assert LinkOk(h, i);
    if i + 1 < |h.list| {
      assert LinkOk(h, i + 1);
    }
  }

  lemma BaseApart(h: Heap)
    requires ListOk(h)
    ensures !Touches(h, 0)
  {
    if |h.list| > 1 {
      Before(h.list, 0, 1);
    }
  }

  /** The units of the block that free makes of b and what it touches, from the headers before the call. */
  function Joined(h: Heap, j: nat, b: nat): (n: nat)
    requires j < |h.list|
  {
    var p, c := h.list[j], Next(h.list, j);
    if b in h.size && p in h.size && c in h.size then
      var own: nat, up: nat, low: nat := h.size[b], h.size[c], h.size[p];
      own + (if b + own == c then up else 0) + (if p + low == b then low else 0)
    else 0
  }

  /** Unit u lies in some block. */
  ghost predicate Covered(h: Heap, u: nat) { exists b :: IsBlock(h, b) && In(h, b, u) }

  /** Every unit that sbrk gave does. */
  ghost predicate AllCovered(h: Heap) { forall u :: u in h.own ==> Covered(h, u) }

  /** The list stays a sorted circle whatever the sizes come to. */
  lemma FreedList(h: Heap, j: nat, b: nat)
    requires ListOk(h) && Place(h, j, b) && b in h.size
    ensures ListOk(Freed(h, j, b))
  {
    hide ListOk, LinkOk, Sorted;
    var h1 := Insert(h, j, b);
    InsertList(h, j, b);
    var h2 := if Touches(h1, j + 1) then Merge(h1, j + 1) else h1;
    if Touches(h1, j + 1) {
      MergeList(h1, j + 1);
    }
    BaseApart(h2);
    if Touches(h2, j) {
      MergeList(h2, j);
    }
  }

  /** What the two joins see. */
  lemma JoinSizes(h: Heap, j: nat, b: nat)
    requires ListOk(h) && Place(h, j, b) && b in h.size
    ensures var h1 := Insert(h, j, b);
            && ListOk(h1) && |h1.list| > j + 1 && h1.list[j] == h.list[j] && h1.list[j + 1] == b
            && h.list[j] in h.size && Next(h.list, j) in h.size
            && (Touches(h1, j + 1) <==> b + h.size[b] == Next(h.list, j))
            && (Touches(h1, j + 1) ==> |h1.list| > j + 2 && h1.list[j + 2] == Next(h.list, j))
            && var h2 := if Touches(h1, j + 1) then Merge(h1, j + 1) else h1;
            && |h2.list| > j + 1 && h2.list[j] == h.list[j] && h2.list[j + 1] == b
            && (Touches(h2, j) <==> h.list[j] + h.size[h.list[j]] == b) && h2.size[h.list[j]] == h.size[h.list[j]]
            && h2.size[b] == (Joined(h, j, b) - (if Touches(h2, j) then h.size[h.list[j]] else 0)) % WRAP
  {
    InsertList(h, j, b);
    PlaceNotListed(h, j, b);
    var h1 := Insert(h, j, b);
    var k := if j + 1 < |h.list| then j + 1 else 0;
    assert LinkOk(h, j) && LinkOk(h, k);
    Before(h.list, 0, k);
    hide ListOk, Sorted;
    assert h1.list[j + 1] == b && h1.list[j] == h.list[j] && (j + 1 < |h.list| ==> h1.list[j + 2] == h.list[j + 1]);
  }

  lemma FreedInv(h: Heap, j: nat, b: nat)
    requires Inv(h) && Place(h, j, b) && b in h.live && Joined(h, j, b) < WRAP
    ensures Inv(Freed(h, j, b))
  {
    hide ListOk, OwnOk, Gap, LinkOk, Sorted, Insert, Next, IsBlock, In;
    BaseParts(h);
    LiveBlock(h, b);
    JoinSizes(h, j, b);
    var h1 := Insert(h, j, b);
    InsertList(h, j, b);
    InsertOwn(h, j, b);
    InsertGaps(h, j, b);
    SameHeaders(h, j, b);
    var h2 := if Touches(h1, j + 1) then Merge(h1, j + 1) else h1;
    if Touches(h1, j + 1) {
      MergeList(h1, j + 1);
      MergeOwn(h1, j + 1);
      MergeGaps(h1, j + 1, j);
    } else {
      NoTouch(h1, j + 1);
    }
    BaseApart(h2);
    LowerJoin(h2, j);
  }

  lemma LiveBlock(h: Heap, b: nat)
    requires OwnOk(h) && b in h.live
    ensures IsBlock(h, b) && b in h.size && h.size[b] > 0
  {
  }

  lemma LowerJoin(h: Heap, j: nat)
    requires Base(h) && GapsBut(h, j, j) && j < |h.list| && (Touches(h, j) ==> j > 0)
    requires Touches(h, j) ==> h.size[h.list[j]] + h.size[h.list[j + 1]] < WRAP
    ensures Inv(if Touches(h, j) then Merge(h, j) else h)
  {
    hide ListOk, OwnOk, Gap, LinkOk, Sorted;
    BaseParts(h);
    if Touches(h, j) {
      MergeList(h, j);
      MergeOwn(h, j);
      MergeGaps(h, j, j);
    } else {
      NoTouch(h, j);
    }
  }

  /** Free block j touches b; b touches the one after it. */
  predicate Low(h: Heap, j: nat, b: nat)
    requires j < |h.list|
  {
    h.list[j] in h.size && h.list[j] + h.size[h.list[j]] == b
  }

  predicate Up(h: Heap, j: nat, b: nat)
    requires j < |h.list|
  {
    b in h.size && b + h.size[b] == Next(h.list, j)
  }

  lemma FreedMembers(h: Heap, j: nat, b: nat)
    requires ListOk(h) && Place(h, j, b) && b in h.size
    ensures var n := Freed(h, j, b);
            && n.live == h.live - {b} && n.own.Keys == h.own.Keys && h.list[j] in n.list
            && forall d :: d in n.list <==>
                  (d in h.list || d == b) && !(Up(h, j, b) && d == Next(h.list, j)) && !(Low(h, j, b) && d == b)
  {
    JoinSizes(h, j, b);
    var h1 := Insert(h, j, b);
    InsertMembers(h, j, b);
    hide ListOk, LinkOk, Next, Joined;
    var h2 := if Touches(h1, j + 1) then Merge(h1, j + 1) else h1;
    SortedOf(h1);
    if Touches(h1, j + 1) {
      MergeList(h1, j + 1);
      WithoutMembers(h1.list, j + 2);
    }
    SortedOf(h2);
    if Touches(h2, j) {
      WithoutMembers(h2.list, j + 1);
    }
    assert Freed(h, j, b).list[j] == h.list[j];
  }

  lemma WrapSum(a: nat, b: nat)
    ensures (b + a % WRAP) % WRAP == (a + b) % WRAP
  {
  }

  /** One block has the joined size, wrapped; all other headers keep theirs. */
  lemma FreedSizes(h: Heap, j: nat, b: nat)
    requires ListOk(h) && Place(h, j, b) && b in h.size
    ensures var n, x := Freed(h, j, b), if Low(h, j, b) then h.list[j] else b;
            && n.size.Keys == h.size.Keys && x in h.size && n.size[x] == Joined(h, j, b) % WRAP
            && (forall d :: d in h.size && d != b && d != x ==> n.size[d] == h.size[d])
  {
    hide ListOk, LinkOk, Next, Joined, Insert, Touches, Sorted;
    JoinSizes(h, j, b);
    JoinKeeps(h, j, b);
    var p := h.list[j];
    if Low(h, j, b) {
      JoinedLow(h, j, b);
      WrapSum(Joined(h, j, b) - h.size[p], h.size[p]);
    }
  }

  lemma JoinedLow(h: Heap, j: nat, b: nat)
    requires j < |h.list| && Low(h, j, b) && b in h.size && Next(h.list, j) in h.size
    ensures Joined(h, j, b) >= h.size[h.list[j]]
  {
  }

  /** The upper join changes the size of b only. */
  lemma JoinKeeps(h: Heap, j: nat, b: nat)
    requires ListOk(h) && Place(h, j, b) && b in h.size
    ensures var h1 := Insert(h, j, b);
            && |h1.list| > j + 1 && h1.list[j + 1] == b && h1.size == h.size && h.list[j] != b
            && var h2 := if Touches(h1, j + 1) then Merge(h1, j + 1) else h1;
            b in h2.size && h2.size == h.size[b := h2.size[b]]
  {
    hide ListOk, LinkOk, Sorted, Next;
    var h1 := Insert(h, j, b);
    assert h1.list[j + 1] == b;
    assert h.size == h.size[b := h.size[b]];
  }

  lemma SortedOf(h: Heap)
    requires ListOk(h)
    ensures Sorted(h.list)
  {
  }

  lemma InsertMembers(h: Heap, j: nat, b: nat)
    requires j < |h.list|
    ensures forall c :: c in Insert(h, j, b).list <==> c in h.list || c == b
  {
    var n := Insert(h, j, b);
    forall c ensures c in n.list <==> c in h.list || c == b {
      if c in h.list {
        var i :| 0 <= i < |h.list| && h.list[i] == c;
        assert n.list[if i <= j then i else i + 1] == c;
      }
      assert n.list[j + 1] == b;
    }
  }

  /** The last unit of a joined block of 2 to the 32 units or more is in no block afterwards. */
  lemma LostUnit(h: Heap, j: nat, b: nat) returns (u: nat)
    requires Inv(h) && Place(h, j, b) && b in h.live && Joined(h, j, b) >= WRAP
    ensures u in h.own && !Covered(Freed(h, j, b), u)
  {
    assert ListOk(h) && OwnOk(h) && IsBlock(h, b);
    var p, c, n := h.list[j], Next(h.list, j), Freed(h, j, b);
    var x := if Low(h, j, b) then p else b;
    var last := if Up(h, j, b) then c else b;
    JoinEnds(h, j, b);
    u := x + Joined(h, j, b) - 1;
    assert In(h, last, u) && IsBlock(h, last);
    FreedMembers(h, j, b);
    FreedSizes(h, j, b);
    hide ListOk, LinkOk, Sorted, Freed, Joined, Next;
    forall d | IsBlock(n, d) ensures !In(n, d, u) {
      if d != x {
        assert IsBlock(h, d) && n.size[d] == h.size[d] && d != last;
        OneBlock(h, last, d, u);
      }
    }
  }

  lemma OneBlock(h: Heap, b: nat, d: nat, u: nat)
    requires OwnOk(h) && IsBlock(h, b) && IsBlock(h, d) && b != d && In(h, b, u)
    ensures !In(h, d, u)
  {
  }

  /** The joined block ends with the last of its parts. */
  lemma JoinEnds(h: Heap, j: nat, b: nat)
    requires Inv(h) && Place(h, j, b) && b in h.live
    ensures var p, c := h.list[j], Next(h.list, j);
            var x, last := if Low(h, j, b) then p else b, if Up(h, j, b) then c else b;
            && IsBlock(h, last) && (Up(h, j, b) ==> c in h.list && c !in h.live) && b !in h.list
            && 0 < h.size[last] <= Joined(h, j, b) && x + Joined(h, j, b) == last + h.size[last]
            && (forall u :: x <= u < x + Joined(h, j, b) ==> u in h.own)
  {
    assert ListOk(h) && OwnOk(h) && IsBlock(h, b);
    var k := if j + 1 < |h.list| then j + 1 else 0;
    assert LinkOk(h, j) && LinkOk(h, k);
    Before(h.list, 0, k);
    Before(h.list, 0, j);
    hide LinkOk, Sorted;
    var p, c := h.list[j], Next(h.list, j);
    assert c in h.list && p in h.list;
    assert Low(h, j, b) ==> IsBlock(h, p);
    var x := if Low(h, j, b) then p else b;
    forall u | x <= u < x + Joined(h, j, b) ensures u in h.own {
      assert In(h, b, u) || (Low(h, j, b) && In(h, p, u)) || (Up(h, j, b) && In(h, c, u));
    }
  }

  /** free keeps the heap well formed, and every unit in some block, if and only if the block it makes has
      fewer than 2 to the 32 units. */
  lemma FreedExact(h: Heap, j: nat, b: nat)
    requires Inv(h) && Place(h, j, b) && b in h.live
    ensures Inv(Freed(h, j, b)) <==> Joined(h, j, b) < WRAP
    ensures AllCovered(Freed(h, j, b)) <==> Joined(h, j, b) < WRAP
  {
    var n := Freed(h, j, b);
    assert ListOk(h) && OwnOk(h) && IsBlock(h, b);
    FreedMembers(h, j, b);
    if Joined(h, j, b) < WRAP {
      FreedInv(h, j, b);
    } else {
      var u := LostUnit(h, j, b);
    }
    hide ListOk, Freed, Joined;
    assert Inv(n) ==> OwnOk(n);
    assert Inv(n) ==> forall u :: u in n.own ==> IsBlock(n, n.own[u]) && In(n, n.own[u], u);
  }

  lemma {:induction false} CardAtLeast(x: nat, n: nat, s: set<nat>)
    requires forall u :: x <= u < x + n ==> u in s
    ensures n <= |s|
    decreases n
  {
    if n > 0 {
      var u := x + n - 1;
      CardAtLeast(x, n - 1, s - {u});
    }
  }

  /** While sbrk has given fewer than 2 to the 32 units in all, free loses none. */
  lemma FewUnits(h: Heap, j: nat, b: nat)
    requires Inv(h) && Place(h, j, b) && b in h.live && |h.own.Keys| < WRAP
    ensures Joined(h, j, b) < WRAP && Inv(Freed(h, j, b))
  {
    JoinEnds(h, j, b);
    CardAtLeast(if Low(h, j, b) then h.list[j] else b, Joined(h, j, b), h.own.Keys);
    FreedInv(h, j, b);
  }

  lemma SameHeaders(h: Heap, j: nat, b: nat)
    requires j < |h.list|
    ensures Insert(h, j, b).size == h.size
  {
  }
}
