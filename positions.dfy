/** A purchase lot: an id, the time it was opened, a quantity and the price paid per unit. */
module Positions {
  import opened Dicts
  import opened Identity

  /** Timestamps are instants on an integer time line. */
  type Timestamp = int

  datatype Position = Position(id: nat, openedAt: Timestamp, quantity: real, pricePerUnit: real)
  {
    /** The purchase value of the lot: quantity times the price paid per unit. */
    function Value(): real {
      quantity * pricePerUnit
    }

    /** Whether the lot was opened on or before `asOf`. */
    predicate OpenedAt(asOf: Timestamp) {
      openedAt <= asOf
    }

    /** `{id: position}`: the one-entry dictionary that files this lot under its own id. */
    function ToDict(): (d: Dict<nat, Position>)
      ensures d.Valid() && d.Keys() == [id] && d.Values() == [this]
    {
      Dict([(id, this)])
    }
  }

  /** `Position(opened_at, quantity, price_per_unit)`: draws a fresh id from the shared counter. */
  method NewPosition(ids: IdCounter, openedAt: Timestamp, quantity: real, pricePerUnit: real) returns (p: Position)
    requires ids.Valid()
    modifies ids
    ensures ids.Valid()
    ensures p == Position(old(ids.next), openedAt, quantity, pricePerUnit)
    ensures p.id !in old(ids.issued) && ids.issued == old(ids.issued) + {p.id}
  {
    var id := ids.Next();
    p := Position(id, openedAt, quantity, pricePerUnit);
  }

  /**
   * The opening bound is inclusive: a lot counts as opened at its own opening instant,
   * not one instant before, and once opened it stays opened.
   */
  lemma OpenedAtIsInclusive(p: Position, t: Timestamp, u: Timestamp)
    requires t <= u
    ensures p.OpenedAt(p.openedAt) && !p.OpenedAt(p.openedAt - 1)
    ensures p.OpenedAt(t) ==> p.OpenedAt(u)
  {
  }
}
