/** What several device models share. */
module Prelude {

  datatype Option<T> = None | Some(value: T)

  type Byte = x: int | 0 <= x < 256

  function Min(a: nat, b: nat): nat {
    if a <= b then a else b
  }

  function One(b: bool): nat {
    if b then 1 else 0
  }

  /** `(w & mask) != 0`, for a mask with a single bit. */
  function Flag(w: nat, mask: nat): bool
    requires 0 < mask
  {
    w / mask % 2 == 1
  }
}
