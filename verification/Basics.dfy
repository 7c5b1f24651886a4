/** Names shared by every component. Identifiers are compared for equality only, so naturals stand for them. */
module Basics {
  datatype Option<+T> = None | Some(value: T)

  /** Milliseconds, as in a JavaScript Date. */
  type Time = int

  type TenantId = nat
  type ProjectId = nat
  type JobId = nat
  type WorkerId = nat

  function Min(a: int, b: int): int {
    if a <= b then a else b
  }

  function Max(a: int, b: int): int {
    if a <= b then b else a
  }
}
