/** The `shared-tag` feature: a tag salted with a per-process instance
    identifier, packed into 128 bits. The identifier is a parameter here. */
module SharedTags {
  import opened Machine
  import VersionTags

  /** `x << 8` on `u128`: bits shifted past the top are discarded, so the
      low byte is clear, and when the top byte of `x` is clear nothing is
      lost and the shift multiplies by 256. */
  function ShiftLeft8(x: u128): (r: u128)
    ensures r as int % 256 == 0
    ensures x as int < U128_LIMIT / 256 ==> r as int == x as int * 256
  {
    ((x as int * 256) % U128_LIMIT) as u128
  }

  /** `a + b` on `u128`: `None` is the overflow that panics in a debug
      build. */
  function CheckedAdd(a: u128, b: u128): (r: Option<u128>)
    ensures r.None? <==> a as int + b as int >= U128_LIMIT
    ensures r.Some? ==> r.value as int == a as int + b as int
  {
    if a as int + b as int < U128_LIMIT then Some(a + b) else None
  }

  /** `shared(instance, tag)`: `(instance as u128) << 8` plus the ordinal.
      For every pair of 64-bit inputs the shift drops no bit and the
      addition does not overflow, so the result is exactly
      `instance * 256 + tag`. */
  function Shared(instance: u64, tag: u64): (r: Option<u128>)
    ensures r.Some?
    ensures r.value as int == instance as int * 256 + tag as int
  {
    var i := ShiftLeft8(instance as u128);
    CheckedAdd(i, tag as u128)
  }

  /** `test_shared_overflow`: the largest inputs still fit. */
  lemma SharedAtMax()
    ensures Shared(U64_MAX as u64, U64_MAX as u64) == Some(0x100_ffff_ffff_ffff_feff)
  {
  }

  /** `SharedTag(u128)`; the derived equality compares the wrapped value. */
  datatype SharedTag = SharedTag(bits: u128)

  /** `SharedTag::new`, with the process instance identifier passed in. */
  function New(instance: u64, tag: VersionTags.VersionTag): (s: SharedTag)
    ensures s.bits as int == instance as int * 256 + tag.ordinal as int
  {
    SharedTag(Shared(instance, tag.ordinal).value)
  }

  /** `From<VersionTag> for SharedTag`: the same as `New`. */
  function From(instance: u64, tag: VersionTags.VersionTag): (s: SharedTag)
    ensures s == New(instance, tag)
    ensures s.bits as int == instance as int * 256 + tag.ordinal as int
  {
    New(instance, tag)
  }

  /** `PartialEq for SharedTag`: equality of the inner `u128`. */
  function Eq(a: SharedTag, b: SharedTag): (r: bool)
    ensures r <==> a == b
  {
    a.bits == b.bits
  }

  /** `PartialEq<Option<SharedTag>> for SharedTag`: false against `None`,
      the inner equality against `Some`. */
  function EqOption(a: SharedTag, other: Option<SharedTag>): (r: bool)
    ensures other.None? ==> !r
    ensures other.Some? ==> (r <==> a.bits == other.value.bits)
    ensures r <==> other == Some(a)
  {
    match other
    case None => false
    case Some(t) => Eq(a, t)
  }

  /** Tags with the same ordinal minted under different instance
      identifiers never compare equal. */
  lemma DistinctInstances(i1: u64, i2: u64, t: VersionTags.VersionTag)
    requires i1 != i2
    ensures !Eq(New(i1, t), New(i2, t))
  {
    var s1, s2 := New(i1, t), New(i2, t);
    assert s1.bits as int - s2.bits as int == (i1 as int - i2 as int) * 256;
  }

  /** Below 256 the ordinal fits in the low byte, so the packing is
      injective there: the instance and the ordinal can both be recovered. */
  lemma InjectiveBelow256(i1: u64, t1: VersionTags.VersionTag, i2: u64, t2: VersionTags.VersionTag)
    requires t1.ordinal < 256 && t2.ordinal < 256
    requires Eq(New(i1, t1), New(i2, t2))
    ensures i1 == i2 && t1 == t2
  {
    var b1, b2 := New(i1, t1).bits as int, New(i2, t2).bits as int;
    assert b1 / 256 == i1 as int && b1 % 256 == t1.ordinal as int;
    assert b2 / 256 == i2 as int && b2 % 256 == t2.ordinal as int;
  }

  /** Because the shift is 8 bits and ordinals are 64 bits wide, different
      instances can collide: instance 0 with ordinal 256 packs to the same
      value as instance 1 with ordinal 0. */
  lemma Collision()
    ensures Eq(New(0, VersionTags.VersionTag(256)), New(1, VersionTags.VersionTag(0)))
  {
  }
}
