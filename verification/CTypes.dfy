/** Machine types of the daemon's C code and the stock Option type. */
module CTypes {
  const UINT64_MAX: nat := 0xFFFF_FFFF_FFFF_FFFF

  type Uint64 = n: nat | n <= UINT64_MAX

  const UINT32_MAX: nat := 0xFFFF_FFFF

  type Uint32 = n: nat | n <= UINT32_MAX

  /** One `unsigned char`. */
  type Byte = b: int | 0 <= b < 256

  datatype Option<+T> = None | Some(value: T)

  function Min(a: nat, b: nat): nat {
    if a <= b then a else b
  }

  lemma SubsetSize(a: set<nat>, b: set<nat>)
    requires a <= b
    ensures |a| <= |b|
  {
    assert b == a + (b - a);
  }

  lemma Joined<T>(a: seq<T>, b: seq<T>, c: seq<T>)
    ensures a + b + c == a + (b + c)
  {
  }
}
