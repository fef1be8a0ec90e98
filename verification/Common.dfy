/** Result types shared by every component of the model. */
module Common {

  datatype Option<+T> = None | Some(value: T)

  datatype Result<+T, +E> = Success(value: T) | Failure(error: E)

  function PowerOfTwo(n: nat): nat {
    if n == 0 then 1 else 2 * PowerOfTwo(n - 1)
  }

  lemma {:induction false} PowersMultiply(m: nat, n: nat)
    ensures PowerOfTwo(m + n) == PowerOfTwo(m) * PowerOfTwo(n)
  {
    if m > 0 {
      PowersMultiply(m - 1, n);
    }
  }

  /** The powers of two that bound the machine integers. */
  lemma {:induction false} MachinePowers()
    ensures PowerOfTwo(8) == 0x100 && PowerOfTwo(16) == 0x1_0000 && PowerOfTwo(32) == 0x1_0000_0000
    ensures PowerOfTwo(63) == 0x8000_0000_0000_0000 && PowerOfTwo(64) == 0x1_0000_0000_0000_0000
    ensures PowerOfTwo(128) == 0x1_0000_0000_0000_0000_0000_0000_0000_0000
  {
    assert PowerOfTwo(8) == 0x100 by { PowersMultiply(4, 4); }
    assert PowerOfTwo(16) == 0x1_0000 by { PowersMultiply(8, 8); }
    assert PowerOfTwo(32) == 0x1_0000_0000 by { PowersMultiply(16, 16); }
    assert PowerOfTwo(64) == 0x1_0000_0000_0000_0000 by { PowersMultiply(32, 32); }
    PowersMultiply(64, 64);
  }
}
