/** Containers, their time windows, and the two window tests both strategies use. */
module Containers {

  datatype Option<T> = None | Some(value: T)

  /** A half-open interval [start, end) of the integer clock. */
  datatype TimeRange = TimeRange(start: int, end: int)

  /** A container record as read from the containers file. Records compare by all
      fields, as the source's dataclass does. */
  datatype Container = Container(id: int, size: nat, value: int, arrival: TimeRange, delivery: TimeRange)

  /** `expired_container` at clock `t`: the delivery window has closed. */
  predicate Expired(c: Container, t: int)
  {
    t >= c.delivery.end
  }

  /** `valid_container_h`: `t` lies inside the delivery window. */
  predicate DeliverableAt(c: Container, t: int)
  {
    c.delivery.end > t >= c.delivery.start
  }

  /** `valid_container` at clock `t`: delivery has started and the container has not
      expired. It is never true together with `Expired`, and it is the same test as
      `DeliverableAt` at the current clock. */
  predicate Sellable(c: Container, t: int)
    ensures Sellable(c, t) ==> !Expired(c, t)
    ensures Sellable(c, t) == DeliverableAt(c, t)
  {
    t >= c.delivery.start && !Expired(c, t)
  }
}
