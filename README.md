# version_tag in Dafny

A model of the `version_tag` Rust crate, a change-detection primitive. The crate
keeps a process-wide counter that starts at 1. A `VersionTag` wraps one counter
snapshot. `VersionTag::new` and `VersionTag::notify` draw the counter's current
value and advance it. `VersionTag::zero` is the sentinel 0, which sorts below
every issued tag. `combine` reduces a slice of tags to the most recent one. The
optional `shared-tag` feature packs a per-process instance identifier and an
ordinal into a `u128`.

Files:

- `machine.dfy` (module `Machine`): the Rust integer widths `usize`, `u64` and `u128`, and `Option`.
- `version_tag.dfy` (module `VersionTags`): covers three parts of the crate.
  - `COUNTER` becomes a `Counter` class. Its `next` field is the counter. A ghost `issued` sequence records every value handed out so far.
  - `New`, `Default` and `Notify` are methods on that counter.
  - `Less`, `Zero`, `ToU64` and `Combine` are functions, with lemmas about `Combine`.
- `shared_tag.dfy` (module `SharedTags`): the `u128` shift and addition, `shared`, `SharedTag::new`, `From`, and the two equality impls, with lemmas about the packing.

The instance identifier of a shared tag is passed in as a parameter. Atomics are
modelled as one sequential object.

The instance identifier exists to tell tags from different process runs apart
(src/lib.rs:45-46, 58-68). The code does not guarantee this. `shared` shifts the instance
by 8 bits, not 64, so `(0, 256)` and `(1, 0)` pack to the same value. The model
follows the code. `SharedTags.Collision` proves the collision.
`SharedTags.DistinctInstances` proves the weaker fact that does hold: two
different instances paired with the same ordinal never produce equal tags.

## Model

| member | source | states |
|---|---|---|
| VersionTags.Counter.constructor | src/lib.rs:43 | the counter starts at 1 with nothing issued, so ordinal 0 is never handed out |
| VersionTags.Counter.FetchAdd | src/lib.rs:101 | returns the value before the increment and raises the counter by exactly one; the history grows by that value and stays 1, 2, ..., next - 1 |
| VersionTags.IssuedIncreasing | src/lib.rs:43 | every issued ordinal is at least 1 and below the counter; issued ordinals are strictly increasing in issuance order, hence pairwise distinct |
| VersionTags.Less | src/lib.rs:95-96 | the derived `<` holds exactly when the first ordinal is below the second |
| VersionTags.LessIsStrictTotalOrder | src/lib.rs:95-96 | the derived `<` is irreflexive, asymmetric, transitive and total on distinct tags |
| VersionTags.Zero | src/lib.rs:115-117 | the zero tag is the least tag: no tag is below it |
| VersionTags.New | src/lib.rs:100-102 | the new tag carries the counter's previous value, the counter rises by one, and the tag is above zero and above every ordinal issued before |
| VersionTags.Default | src/lib.rs:125-130 | behaves as `New`: a fresh ordinal, above zero |
| VersionTags.Notify | src/lib.rs:120-122 | the tag's ordinal becomes the counter's previous value; it is above the old ordinal of any tag taken from this counter and above every ordinal issued before |
| VersionTags.ToU64 | src/lib.rs:132-136 | the exposed `u64` rebuilds the same tag, so nothing is lost |
| VersionTags.Ordinals | src/lib.rs:162 | `tags.iter().map(...)` taking each tag's field: one ordinal per tag, in the same order |
| VersionTags.Max | src/lib.rs:162 | `Iterator::max`: `None` exactly for the empty input; otherwise an element of the input that is at least every element |
| VersionTags.Combine | src/lib.rs:138-163 | the empty slice gives `zero()` (`unwrap_or_default`, modelled by `Machine.Option.GetOr` with 0); otherwise the result is one of the inputs and is at least every input |
| VersionTags.CombineUnique | src/lib.rs:138 | any input that is at least every input is the combined tag, so the maximum characterisation determines `combine` |
| VersionTags.CombineSingleton | src/lib.rs:161-163 | `combine([t]) == t` |
| VersionTags.CombinePermutation | src/lib.rs:161-163 | two slices with the same tags, in any order, combine to the same tag |
| VersionTags.CombineCommutative | src/lib.rs:161-163 | `combine([x, y]) == combine([y, x])` |
| VersionTags.CombineConcat | src/lib.rs:161-163 | combining a concatenation equals combining the two partial combinations |
| VersionTags.CombineNewest | src/lib.rs:144-152 | a tag above all the others is the combination of the slice extended by it, and differs from every other input |
| VersionTags.CombineAfterNotify | src/lib.rs:154-159 | replacing one input by a tag above all inputs makes that tag the combination, and the combination changes |
| VersionTags.CombineMonotone | src/lib.rs:161-163 | raising one input never lowers the combined tag |
| VersionTags.ZeroExample | src/lib.rs:108-114 | the returned `z` is `Zero()` and is below the newly issued tag: `zero() < new()` after any issuance |
| VersionTags.CombineExample | src/lib.rs:141-160 | the doc example: with `t1` then `t2` new, `combine([t1, t2])` equals `t2` and differs from the first `t1`; after `t1.notify()`, the combination equals the new `t1` and differs from the first one |
| SharedTags.ShiftLeft8 | src/lib.rs:167 | `<< 8` on `u128`: the low byte of the result is clear, and when the top byte of the input is clear the shift is multiplication by 256 |
| SharedTags.CheckedAdd | src/lib.rs:168 | `+` on `u128`: overflows (the debug-build panic) exactly when the sum reaches 2^128; otherwise it is the exact sum |
| SharedTags.Shared | src/lib.rs:165-169 | the shift loses no bit and the addition never overflows for any 64-bit inputs; the value is `instance * 256 + tag` |
| SharedTags.SharedAtMax | src/lib.rs:171-174 | `shared(u64::MAX, u64::MAX)` does not overflow and equals 0x100ffffffffffffeff |
| SharedTags.New | src/lib.rs:53-56 | the shared tag's bits are `instance * 256 + ordinal` |
| SharedTags.From | src/lib.rs:74-79 | the same as `SharedTag::new` |
| SharedTags.Eq | src/lib.rs:81-86 | equal exactly when the two shared tags are the same value |
| SharedTags.EqOption | src/lib.rs:88-93 | always false against `None`; against `Some(u)` it is inner `u128` equality; so true exactly when the option is `Some` of this tag |
| SharedTags.DistinctInstances | src/lib.rs:166-169 | the same ordinal under two different instance identifiers never gives equal shared tags |
| SharedTags.InjectiveBelow256 | src/lib.rs:166-169 | for ordinals below 256, equal shared tags have equal instances and equal ordinals |
| SharedTags.Collision | src/lib.rs:166-169 | instance 0 with ordinal 256 equals instance 1 with ordinal 0, so `shared` is not injective |

## Left out

- Atomicity and `Relaxed` ordering of `COUNTER` and `INSTANCE`: the counter is one sequential object, so concurrent interleavings are not modelled.
- `SharedTag::instance` (random generation and compare-and-swap lazy initialisation): randomness and concurrency. The instance identifier is a parameter of `SharedTags.New` and `SharedTags.From`. The model states nothing about which value the first caller receives.
- Serde serialisation of `SharedTag` (`serde(transparent)` over `u128`): it is a foreign derive. The crate has no encoder or decoder of its own that could be modelled.
- VersionTags.Counter.FetchAdd: does not model the counter wrapping at `usize::MAX`, nor a 32-bit `usize`. Its precondition keeps the counter below `u64::MAX`, which the source leaves unhandled. `New`, `Default` and `Notify` inherit that precondition.
- VersionTags.Notify: `&mut self` on a `Copy` value is modelled as returning the new tag, which the caller assigns back. A tag has no identity, so this loses no aliasing.
- The module-level example (src/lib.rs:1-40): it is client code, not library logic.
- `CheckedAdd` in `SharedTags` models a debug build, where `u128` overflow panics. `SharedTags.Shared` proves the overflow cannot happen, so a release build, which would wrap, gives the same result.
