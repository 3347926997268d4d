/** What several modules share. */
module Commons {

  datatype Option<+T> = None | Some(value: T)

  /** Closure status. Forming: promoted by a thief that still holds its lock and sets up the stolen stacklet. */
  datatype Status = Running | Forming | Ready | Returning | Suspended

  function Min(x: int, y: int): (z: int)
    ensures z <= x && z <= y && (z == x || z == y)
  {
    if x <= y then x else y
  }

  function Max(x: int, y: int): (z: int)
    ensures z >= x && z >= y && (z == x || z == y)
  {
    if x >= y then x else y
  }

  function Pow2(k: nat): (n: nat)
    ensures n >= 1
  {
    if k == 0 then 1 else 2 * Pow2(k - 1)
  }
}
