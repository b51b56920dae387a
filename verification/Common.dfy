/** Small types and functions that several modules use. */
module Common {
  datatype Option<T> = None | Some(value: T)

  /** One field of an update request: kept as it is, or set. */
  datatype Field<T> = Keep | Set(value: T)

  function Patched<T>(current: T, field: Field<T>): T {
    if field.Set? then field.value else current
  }

  function Min(a: nat, b: nat): nat {
    if a < b then a else b
  }
}
