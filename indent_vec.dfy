/**
 * `indent_vec`: the scanner's persistent state, a growable vector of 16-bit
 * columns. `data` holds the `len` live entries; `cap` is the allocated size.
 */
module IndentStack {
  import opened Layout

  function Max(a: int, b: int): int {
    if a > b then a else b
  }

  class IndentVec {
    var data: seq<U16>
    var cap: nat

    ghost predicate Valid()
      reads this
    {
      |data| <= cap
    }

    /** The zero-filled vector of `create`: no entries, no storage. */
    constructor ()
      ensures Valid() && data == [] && cap == 0
    {
      data := [];
      cap := 0;
    }

    /** `VEC_GROW`: storage for at least `n` entries; the entries stay. */
    method Grow(n: nat)
      requires Valid()
      modifies this`cap
      ensures Valid()
      ensures cap == Max(old(cap), n)
    {
      if cap < n {
        cap := n;
      }
    }

    /** `push` through `VEC_PUSH`: a full vector first grows to max(20, 2 * len). */
    method Push(ind: U16)
      requires Valid()
      modifies this
      ensures Valid()
      ensures data == PushIndent(old(data), ind)
      ensures cap == if old(cap) == old(|data|) then Max(20, 2 * old(|data|)) else old(cap)
    {
      if cap == |data| {
        cap := Max(20, 2 * |data|);
      }
      data := data + [ind];
    }

    /** `pop`: `VEC_POP` guarded by `indent_exists`. */
    method Pop()
      requires Valid()
      modifies this`data
      ensures Valid()
      ensures data == PopIndent(old(data))
    {
      if |data| != 0 {
        data := data[..|data| - 1];
      }
    }
  }
}
