/** Slot-stable node storage with a free list. */
module Arenas {
  import opened Types

  type Slot = nat

  /** The "no node" link. Real slots are below it. */
  const NULL: Slot := 0xFFFF_FFFF

  datatype Node = Node(
    key: OrderKey,
    price: Price,
    qty: Qty,
    side: Side,
    prev: Slot,
    next: Slot,
    /** Position in the owning account's slot array. */
    acctIdx: nat)

  predicate Live(nodes: seq<Option<Node>>, s: Slot) {
    s < |nodes| && nodes[s].Some?
  }

  function At(nodes: seq<Option<Node>>, s: Slot): Node
    requires Live(nodes, s)
  {
    nodes[s].value
  }

  /** The free list names exactly the vacant slots, each once, and no slot collides with NULL. */
  ghost predicate FreeListExact(nodes: seq<Option<Node>>, free: seq<Slot>) {
    && |nodes| <= NULL
    && (forall i :: 0 <= i < |free| ==> free[i] < |nodes| && nodes[free[i]].None?)
    && (forall i, j :: 0 <= i < j < |free| ==> free[i] != free[j])
    && (forall s :: 0 <= s < |nodes| && nodes[s].None? ==> s in free)
  }

  class Arena {
    var slots: seq<Option<Node>>
    var free: seq<Slot>

    ghost predicate Valid()
      reads this
    {
      FreeListExact(slots, free)
    }

    /** Slot numbers are 32 bits wide: a fresh slot must still be below NULL. */
    predicate HasRoom()
      reads this
    {
      free != [] || |slots| < NULL
    }

    constructor ()
      ensures Valid() && slots == [] && free == []
    {
      slots := [];
      free := [];
    }

    /** A reused slot comes off the free list; otherwise the arena grows by one. Nothing live moves. */
    method Insert(node: Node) returns (slot: Slot)
      requires Valid() && HasRoom()
      modifies this
      ensures Valid()
      ensures slot < NULL && !Live(old(slots), slot)
      ensures Live(slots, slot) && At(slots, slot) == node
      ensures forall s :: s != slot ==> (Live(slots, s) <==> Live(old(slots), s))
      ensures forall s :: Live(old(slots), s) ==> At(slots, s) == At(old(slots), s)
      ensures |slots| - |free| == old(|slots| - |free|) + 1 && |slots| <= |old(slots)| + 1
    {
      if free != [] {
        slot := free[|free| - 1];
        free := free[..|free| - 1];
        slots := slots[slot := Some(node)];
      } else {
        slot := |slots|;
        slots := slots + [Some(node)];
      }
    }

    method FreeSlot(slot: Slot)
      requires Valid() && Live(slots, slot)
      modifies this
      ensures Valid() && HasRoom()
      ensures slots == old(slots)[slot := None] && free == old(free) + [slot]
    {
      slots := slots[slot := None];
      free := free + [slot];
      assert free[|free| - 1] == slot;
    }

    /** Write through a live slot. */
    method Overwrite(slot: Slot, node: Node)
      requires Valid() && Live(slots, slot)
      modifies this`slots
      ensures Valid()
      ensures slots == old(slots)[slot := Some(node)]
    {
      slots := slots[slot := Some(node)];
    }

    function Len(): (n: int)
      reads this
    {
      |slots| - |free|
    }
  }
}
