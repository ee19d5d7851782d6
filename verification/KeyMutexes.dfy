/** The striped lock. */
module KeyMutexes {

  /** Unsigned 64-bit numbers, and the conversion of a signed one. */
  type Unsigned = n: int | 0 <= n < 0x1_0000_0000_0000_0000

  function ToUnsigned(n: int): Unsigned {
    n % 0x1_0000_0000_0000_0000
  }

  /** The stripe of a lock with count stripes. */
  function Stripe(idx: Unsigned, count: nat): (k: nat)
    requires count > 0
    ensures k < count
  {
    idx % count
  }

  /** Locking blocks while the stripe is locked; in this sequential reading a caller must find it
      free.  Unlocking a free stripe is a fatal error. */
  class KeyMutex {
    const count: nat
    const locks: array<bool>

    ghost predicate Valid() {
      locks.Length == count
    }

    constructor (count: nat)
      ensures Valid() && this.count == count && fresh(locks)
      ensures forall k :: 0 <= k < count ==> !locks[k]
    {
      this.count := count;
      locks := new bool[count](_ => false);
    }

    method LockID(idx: Unsigned)
      requires Valid() && count > 0 && !locks[Stripe(idx, count)]
      modifies locks
      ensures locks[..] == old(locks[..])[Stripe(idx, count) := true]
    {
      locks[idx % count] := true;
    }

    method UnlockID(idx: Unsigned)
      requires Valid() && count > 0 && locks[Stripe(idx, count)]
      modifies locks
      ensures locks[..] == old(locks[..])[Stripe(idx, count) := false]
    {
      locks[idx % count] := false;
    }
  }
}
