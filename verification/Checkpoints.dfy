/** Writes to a checkpoint store, which both checkpointing workers depend on. */
module Checkpoints {

  /** How one write settled. A rejected write may have landed all the same. */
  datatype Write = Stored | Rejected(landed: bool, cancelled: bool) {
    predicate Lands() { Stored? || landed }
  }
}
