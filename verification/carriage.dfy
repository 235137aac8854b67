// Train carriages: TrainCarriage.java.
module Carriages {
  /**
   * One row of the carriage table of the database: an entity that gives `quantity`
   * identical carriages of one carriage class to a train.
   */
  datatype CarriageEntity = CarriageEntity(
    id: int,
    quantity: int,
    capacity: int,
    className: string,
    length: real,
    maxVelocity: real,
    deceleration: real)

  /**
   * A carriage of a train. Every field is final in the source, so the class has only
   * constants; its identity is its reference (the movement code compares carriages
   * with `==`), while `Equals` is the value equality of the source.
   * The location of a carriage lives in `Graph.Network.locations`.
   */
  class TrainCarriage {
    const identifier: int
    const capacity: int
    const className: string
    const length: real
    /** The identifier of the train this carriage belongs to. */
    const parentTrain: int

    constructor (entity: CarriageEntity, parentTrain: int)
      ensures identifier == entity.id && capacity == entity.capacity
      ensures className == entity.className && length == entity.length
      ensures this.parentTrain == parentTrain
    {
      identifier := entity.id;
      capacity := entity.capacity;
      className := entity.className;
      length := entity.length;
      this.parentTrain := parentTrain;
    }

    /** Two carriages are equal when they share the identifier of their entity. */
    predicate Equals(other: object?)
    {
      other is TrainCarriage && (other as TrainCarriage).identifier == identifier
    }
  }

  /** Carriages made from the same entity are equal, although they are distinct objects. */
  lemma SameEntityCarriagesEqual(a: TrainCarriage, b: TrainCarriage, entity: CarriageEntity)
    requires a.identifier == entity.id && b.identifier == entity.id
    ensures a.Equals(b) && b.Equals(a)
  {
  }

  /** Equality of carriages is reflexive, symmetric and never holds against null. */
  lemma EqualsIsEquivalence(a: TrainCarriage, b: TrainCarriage, c: TrainCarriage)
    ensures a.Equals(a)
    ensures a.Equals(b) <==> b.Equals(a)
    ensures a.Equals(b) && b.Equals(c) ==> a.Equals(c)
    ensures !a.Equals(null)
  {
  }
}
