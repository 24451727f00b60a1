/** The identifiers shared by the expression engine and the factors. */
module Keys {

  /** An optimisation variable's identifier (gtsam's `Key`). */
  type Key = nat
}
