/** The size classes of the region allocator. */
module SizeClass {
  import opened Bits

  const MIN_LEN: nat := 8
  const MID_INC: nat := 16
  const MID_LEN: nat := 256
  const MAX_LEN: nat := 4096
  const CLASSES: nat := 21

  datatype Class = Class(index: nat, len: nat)

  /** alloc_class: the class of a request and the length it is rounded to. */
  function AllocClass(len: nat): Class
    requires len <= MAX_LEN
  {
    if len <= MIN_LEN then Class(0, MIN_LEN)
    else if len <= MID_LEN then Class(CeilDiv(len, MID_INC), CeilDiv(len, MID_INC) * MID_INC)
    else Class(Ctz(CeilPow2(len)) + 8, CeilPow2(len))
  }

  /** On the powers of two it is used for, ctz is the position of the leading bit. */
  function Ctz(x: nat): nat {
    if x == 0 then 64 else Log2(x)
  }

  /** The block length of a class: 8, then multiples of 16, then powers of two. */
  function ClassLen(k: nat): (len: nat)
    requires k < CLASSES
    ensures MIN_LEN <= len
  {
    if k == 0 then 8 else if k <= 16 then 16 * k
    else if k == 17 then 512 else if k == 18 then 1024 else if k == 19 then 2048 else 4096
  }

  lemma LargeClass(len: nat)
    requires MID_LEN < len <= MAX_LEN
    ensures var c := AllocClass(len); 17 <= c.index < CLASSES && c.len == ClassLen(c.index) && len <= c.len < 2 * len
  {
    var n := Log2(len - 1);
    Pow2Middle(n);
    Pow2Middle(n + 1);
    CeilPow2Exponent(len, n);
    var x := CeilPow2(len);
    Log2IsUnique(x, Log2(x), n + 1);
    assert AllocClass(len) == Class(n + 9, x);
  }

  /** alloc_class picks the smallest class that holds the request, and nothing is rounded twice. */
  lemma AllocClassIsLeast(len: nat)
    requires len <= MAX_LEN
    ensures var c := AllocClass(len);
      && c.index < CLASSES && c.len == ClassLen(c.index) && len <= c.len
      && (forall j :: 0 <= j < CLASSES && len <= ClassLen(j) ==> c.len <= ClassLen(j) && c.index <= j)
  {
    if len > MID_LEN { LargeClass(len); }
  }

  lemma ClassOfItsLength(k: nat)
    requires k < CLASSES
    ensures AllocClass(ClassLen(k)) == Class(k, ClassLen(k))
  {
    AllocClassIsLeast(ClassLen(k));
  }

  /** A slab holds 256 blocks of a small class or 16 of a large one. */
  function SlabBlocks(k: nat): nat
    requires k < CLASSES
  {
    if ClassLen(k) <= MID_LEN then 256 else 16
  }

  function SlabLen(k: nat): nat
    requires k < CLASSES
  {
    if ClassLen(k) <= MID_LEN then ClassLen(k) * 256 else ClassLen(k) * 16
  }

  lemma SlabHoldsItsBlocks(k: nat)
    requires k < CLASSES
    ensures SlabLen(k) == SlabBlocks(k) * ClassLen(k)
  {
  }
}
