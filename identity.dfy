/** The process-wide identity source shared by positions and assets. */
module Identity {

  /**
   * `itertools.count()`: each call hands out the next natural number, starting at 0.
   * `issued` records every number handed out so far.
   */
  class IdCounter {
    var next: nat
    ghost var issued: set<nat>

    ghost predicate Valid()
      reads this
    {
      forall i: int :: i in issued <==> 0 <= i < next
    }

    constructor ()
      ensures Valid() && next == 0 && issued == {}
    {
      next := 0;
      issued := {};
    }

    /** `next(GLOBAL_IDENTITY)`: the id is larger than, hence distinct from, every id issued before. */
    method Next() returns (id: nat)
      requires Valid()
      modifies this
      ensures Valid()
      ensures id == old(next) && next == id + 1
      ensures forall j | j in old(issued) :: j < id
      ensures id !in old(issued) && issued == old(issued) + {id}
    {
      id := next;
      next := next + 1;
      issued := issued + {id};
    }
  }
}
