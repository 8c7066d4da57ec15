/**
 * The per-group metrics record that grouped metrics are built from. Its fields
 * and arithmetic are not part of this model: a record is a value of a type
 * parameter `M`, and everything the grouped container asks of it is gathered
 * in a `Capabilities` value. The algebraic laws the grouped operators inherit
 * are stated as predicates over those capabilities, to be required by the
 * lemmas that depend on them.
 */
module LiftMetrics {
  import opened Wrappers
  import opened Dynamic

  /** The operations of one metrics record: `+`, `^`, `toDynamic`, `fromDynamic`.
      A record that cannot be read back from a structured value yields `None`. */
  datatype Capabilities<!M> = Capabilities(
    add: (M, M) -> M,
    xor: (M, M) -> M,
    toDynamic: M -> Json,
    fromDynamic: Json -> Option<M>)

  ghost predicate Commutative<M(!new)>(op: (M, M) -> M) {
    forall x, y :: op(x, y) == op(y, x)
  }

  ghost predicate Associative<M(!new)>(op: (M, M) -> M) {
    forall x, y, z :: op(op(x, y), z) == op(x, op(y, z))
  }

  /** Reading back what a record was written as gives the record again. */
  ghost predicate RoundTrips<M(!new)>(caps: Capabilities<M>) {
    forall m :: caps.fromDynamic(caps.toDynamic(m)) == Some(m)
  }

  /** Every value a record can be read from is the one it is written as. */
  ghost predicate Canonical<M(!new)>(caps: Capabilities<M>) {
    forall d, m :: caps.fromDynamic(d) == Some(m) ==> caps.toDynamic(m) == d
  }
}
