/** What several parts of the model share. */
module Common {

  datatype Option<T> = None | Some(value: T)

  /** The mutex of the slab pool. */
  datatype Lock = Free | Held(worker: nat)

  function Min(a: nat, b: nat): nat { if a < b then a else b }
}
