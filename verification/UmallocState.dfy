/** The heap of user/umalloc.c in units of one header: the circular free list in memory, beside the list it
    stands for, the blocks handed out, and the block every unit belongs to. */
module UmallocState {
  /** The address of the static header `base`, below the heap. */
  const BASE: nat := 1

  /** The header field `size` is an unsigned 32-bit number. */
  const WRAP := 0x1_0000_0000

  type Uint = n: nat | n < WRAP

  /** `ptr` and `size` are the header fields; `list` is the free list from base on, `live` the blocks
      malloc has returned with their units, `own` the block of every unit obtained from sbrk. */
  datatype Heap = Heap(ptr: map<nat, nat>, size: map<nat, Uint>, list: seq<nat>, live: map<nat, nat>,
                       own: map<nat, nat>)

  /** The block after the i-th on the circle. */
  function Next(list: seq<nat>, i: nat): (b: nat)
    requires i < |list|
  {
    if i + 1 < |list| then list[i + 1] else list[0]
  }

  /** The list is the circle in memory, in address order from base. */
  ghost predicate ListOk(h: Heap)
  {
    && |h.list| > 0 && h.list[0] == BASE
    && Sorted(h.list) && (forall i {:trigger LinkOk(h, i)} :: 0 <= i < |h.list| ==> LinkOk(h, i))
    && BASE in h.size && h.size[BASE] == 0
  }

  ghost predicate Sorted(list: seq<nat>) { forall i, j :: 0 <= i < j < |list| ==> list[i] < list[j] }

  /** The i-th block of the list has a header that points to the next. */
  ghost predicate LinkOk(h: Heap, i: nat)
    requires i < |h.list|
  {
    h.list[i] in h.ptr && h.list[i] in h.size && h.ptr[h.list[i]] == Next(h.list, i)
  }

  ghost predicate IsBlock(h: Heap, b: nat)
  {
    b > BASE && b in h.size && (b in h.list || b in h.live)
  }

  /** Unit u lies in block b. */
  predicate In(h: Heap, b: nat, u: nat) { b in h.size && b <= u < b + h.size[b] }

  /** Free and live blocks are disjoint intervals that make up the heap. */
  ghost predicate OwnOk(h: Heap)
  {
    && (forall b :: IsBlock(h, b) ==> h.size[b] > 0)
    && (forall b, u {:trigger In(h, b, u)} :: IsBlock(h, b) && In(h, b, u) ==> u in h.own && h.own[u] == b)
    && (forall u :: u in h.own ==> IsBlock(h, h.own[u]) && In(h, h.own[u], u))
    && (forall b :: b in h.live ==> IsBlock(h, b) && b !in h.list && h.live[b] == h.size[b])
  }

  /** Free block i does not touch the next one. */
  ghost predicate Gap(h: Heap, i: nat)
  {
    i + 1 < |h.list| && h.list[i] in h.size ==> h.list[i] + h.size[h.list[i]] != h.list[i + 1]
  }

  ghost predicate Coalesced(h: Heap) { forall i :: 0 <= i < |h.list| ==> Gap(h, i) }

  ghost predicate Base(h: Heap) { ListOk(h) && OwnOk(h) }

  ghost predicate Inv(h: Heap) { Base(h) && Coalesced(h) }
}
