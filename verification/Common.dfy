/** What several of the components below share. */
module Common {

  datatype Option<T> = None | Some(value: T)

  /** How much the engine reads, hashes and compares at a time. */
  const CHUNK := 1048576

  function Least(a: nat, b: nat): nat { if a < b then a else b }
}
