/** Version tags: a process-wide counter that issues strictly increasing
    ordinals, the tag value type wrapping one ordinal, and `combine`, which
    reduces several tags to the most recent one. */
module VersionTags {
  import opened Machine

  /** `VersionTag(u64)`: an opaque, copyable snapshot of the counter. The
      derived `Ord` is the order of the ordinals; the derived `Eq` is
      ordinal equality, which is Dafny's equality on this datatype. */
  datatype VersionTag = VersionTag(ordinal: u64)

  /** The derived `<` on tags: the order of the ordinals. */
  predicate Less(a: VersionTag, b: VersionTag): (r: bool)
    ensures r ==> a.ordinal < b.ordinal
    ensures !r ==> a == b || b.ordinal < a.ordinal
  {
    a.ordinal < b.ordinal
  }

  /** `Less` is a strict total order, as the derived `Ord` requires. */
  lemma LessIsStrictTotalOrder(a: VersionTag, b: VersionTag, c: VersionTag)
    ensures !Less(a, a)
    ensures Less(a, b) ==> !Less(b, a)
    ensures Less(a, b) && Less(b, c) ==> Less(a, c)
    ensures a != b ==> Less(a, b) || Less(b, a)
  {
  }

  /** The process-wide `COUNTER`, an `AtomicUsize` starting at 1, as a
      sequential object. `issued` records every value handed out so far. */
  class Counter {
    var next: usize
    ghost var issued: seq<u64>

    /** The counter has handed out exactly 1, 2, ..., next - 1, in that order. */
    ghost predicate Valid()
      reads this
    {
      1 <= next &&
      |issued| == next as int - 1 &&
      forall k :: 0 <= k < |issued| ==> issued[k] as int == k + 1
    }

    /** `AtomicUsize::new(1)`: ordinal 0 is never issued. */
    constructor ()
      ensures Valid()
      ensures next == 1 && issued == []
    {
      next := 1;
      issued := [];
    }

    /** `fetch_add(1)`: returns the value before the increment. The counter
        must not be at `usize::MAX`, where the source would wrap to 0. */
    method FetchAdd() returns (prev: usize)
      requires Valid()
      requires next as int < U64_MAX
      modifies this
      ensures Valid()
      ensures prev == old(next)
      ensures next as int == old(next) as int + 1
      ensures issued == old(issued) + [prev as u64]
    {
      prev := next;
      next := next + 1;
      issued := issued + [prev as u64];
    }
  }

  /** Every ordinal a valid counter has issued is at least 1, below the next
      one, and the ordinals are strictly increasing in issuance order, hence
      pairwise distinct. */
  lemma IssuedIncreasing(c: Counter)
    requires c.Valid()
    ensures forall k :: 0 <= k < |c.issued| ==> 1 <= c.issued[k] && c.issued[k] as int < c.next as int
    ensures forall j, k :: 0 <= j < k < |c.issued| ==> c.issued[j] < c.issued[k]
  {
  }

  /** `VersionTag::zero`: the least tag of all. */
  function Zero(): (z: VersionTag)
    ensures forall t :: !Less(t, z)
  {
    VersionTag(0)
  }

  /** `VersionTag::new`: draws the counter's current value and bumps it. */
  method New(c: Counter) returns (t: VersionTag)
    requires c.Valid()
    requires c.next as int < U64_MAX
    modifies c
    ensures c.Valid()
    ensures t.ordinal as int == old(c.next) as int
    ensures c.next as int == old(c.next) as int + 1
    ensures c.issued == old(c.issued) + [t.ordinal]
    ensures Less(Zero(), t)
    ensures forall k :: 0 <= k < |old(c.issued)| ==> old(c.issued)[k] < t.ordinal
  {
    var prev := c.FetchAdd();
    t := VersionTag(prev as u64);
  }

  /** `Default for VersionTag`: the same as `New`. */
  method Default(c: Counter) returns (t: VersionTag)
    requires c.Valid()
    requires c.next as int < U64_MAX
    modifies c
    ensures c.Valid()
    ensures t.ordinal as int == old(c.next) as int
    ensures c.next as int == old(c.next) as int + 1
    ensures c.issued == old(c.issued) + [t.ordinal]
    ensures Less(Zero(), t)
  {
    t := New(c);
  }

  /** `VersionTag::notify(&mut self)`: overwrites the tag's ordinal with a
      freshly drawn one. A tag is a `Copy` value, so the new value is
      returned and the caller assigns it back. Any tag that came from this
      counter (or `Zero`) has an ordinal below `next`, and such a tag grows. */
  method Notify(c: Counter, t: VersionTag) returns (r: VersionTag)
    requires c.Valid()
    requires c.next as int < U64_MAX
    modifies c
    ensures c.Valid()
    ensures r.ordinal as int == old(c.next) as int
    ensures c.next as int == old(c.next) as int + 1
    ensures c.issued == old(c.issued) + [r.ordinal]
    ensures t.ordinal as int < old(c.next) as int ==> Less(t, r)
    ensures forall k :: 0 <= k < |old(c.issued)| ==> old(c.issued)[k] < r.ordinal
  {
    var prev := c.FetchAdd();
    r := VersionTag(prev as u64);
  }

  /** `From<VersionTag> for u64`: exposes the ordinal, losing nothing. */
  function ToU64(t: VersionTag): (n: u64)
    ensures VersionTag(n) == t
  {
    t.ordinal
  }

  /** `tags.iter().map(|t| t.0)` */
  function Ordinals(tags: seq<VersionTag>): (os: seq<u64>)
    ensures |os| == |tags|
    ensures forall i :: 0 <= i < |tags| ==> os[i] == tags[i].ordinal
  {
    seq(|tags|, i requires 0 <= i < |tags| => tags[i].ordinal)
  }

  /** `Iterator::max`: folds from the left and, of equal maxima, keeps the
      later one; `None` for an empty iterator. */
  function Max(xs: seq<u64>): (m: Option<u64>)
    ensures m.None? <==> xs == []
    ensures m.Some? ==> m.value in xs
    ensures m.Some? ==> forall i :: 0 <= i < |xs| ==> xs[i] <= m.value
  {
    if xs == [] then None
    else
      var init, last := xs[..|xs| - 1], xs[|xs| - 1];
      assert xs == init + [last];
      match Max(init)
      case None => Some(last)
      case Some(m) => Some(if m <= last then last else m)
  }

  /** `combine`: the tag with the greatest ordinal, or `Zero()` (through
      `unwrap_or_default`) when there are none. */
  function Combine(tags: seq<VersionTag>): (r: VersionTag)
    ensures tags == [] ==> r == Zero()
    ensures tags != [] ==> r in tags
    ensures forall i :: 0 <= i < |tags| ==> tags[i].ordinal <= r.ordinal
  {
    var os := Ordinals(tags);
    var m := Max(os);
    assert m.Some? ==> exists i :: 0 <= i < |tags| && tags[i] == VersionTag(m.value);
    VersionTag(m.GetOr(0))
  }

  /** The two properties of `Combine` pin it down: a member of the input
      that is at least every member is the combined tag. */
  lemma CombineUnique(tags: seq<VersionTag>, m: VersionTag)
    requires m in tags
    requires forall i :: 0 <= i < |tags| ==> tags[i].ordinal <= m.ordinal
    ensures Combine(tags) == m
  {
    var r := Combine(tags);
    var j :| 0 <= j < |tags| && tags[j] == r;
    var k :| 0 <= k < |tags| && tags[k] == m;
    assert r.ordinal <= m.ordinal && m.ordinal <= r.ordinal;
  }

  /** `combine([t]) == t` */
  lemma CombineSingleton(t: VersionTag)
    ensures Combine([t]) == t
  {
  }

  /** `combine` does not depend on the order of its input. */
  lemma CombinePermutation(a: seq<VersionTag>, b: seq<VersionTag>)
    requires multiset(a) == multiset(b)
    ensures Combine(a) == Combine(b)
  {
    if a == [] {
      assert |b| == |multiset(b)| == 0;
    } else {
      var m := Combine(a);
      assert m in multiset(b);
      forall i | 0 <= i < |b|
        ensures b[i].ordinal <= m.ordinal
      {
        assert b[i] in multiset(a);
      }
      CombineUnique(b, m);
    }
  }

  /** `combine([a, b]) == combine([b, a])` */
  lemma CombineCommutative(x: VersionTag, y: VersionTag)
    ensures Combine([x, y]) == Combine([y, x])
  {
    CombinePermutation([x, y], [y, x]);
  }

  /** Combining can be done piecewise: the combination of two slices is the
      combination of their two combined tags. */
  lemma CombineConcat(a: seq<VersionTag>, b: seq<VersionTag>)
    ensures Combine(a + b) == Combine([Combine(a), Combine(b)])
  {
    var ab := a + b;
    var ca, cb := Combine(a), Combine(b);
    var m := Combine([ca, cb]);
    if a == [] {
      assert ab == b;
      CombineUnique([ca, cb], cb);
    } else if b == [] {
      assert ab == a;
      CombineUnique([ca, cb], ca);
    } else {
      forall i | 0 <= i < |ab|
        ensures ab[i].ordinal <= m.ordinal
      {
        if i < |a| {
          assert ab[i] == a[i];
        } else {
          assert ab[i] == b[i - |a|];
        }
      }
      var j :| 0 <= j < |a| && a[j] == ca;
      var k :| 0 <= k < |b| && b[k] == cb;
      assert ab[j] == ca && ab[|a| + k] == cb;
      CombineUnique(ab, m);
    }
  }

  /** A tag issued after all the others dominates their combination, and
      differs from each of them. */
  lemma CombineNewest(tags: seq<VersionTag>, t: VersionTag)
    requires forall i :: 0 <= i < |tags| ==> Less(tags[i], t)
    ensures Combine(tags + [t]) == t
    ensures forall i :: 0 <= i < |tags| ==> Combine(tags + [t]) != tags[i]
  {
    var s := tags + [t];
    assert s[|tags|] == t;
    forall i | 0 <= i < |s|
      ensures s[i].ordinal <= t.ordinal
    {
      if i < |tags| {
        assert s[i] == tags[i];
      }
    }
    CombineUnique(s, t);
  }

  /** Invalidating one input with an ordinal above every input makes it the
      combined tag, and the combined tag changes. */
  lemma CombineAfterNotify(tags: seq<VersionTag>, i: nat, t: VersionTag)
    requires i < |tags|
    requires forall j :: 0 <= j < |tags| ==> Less(tags[j], t)
    ensures Combine(tags[i := t]) == t
    ensures Combine(tags[i := t]) != Combine(tags)
  {
    var s := tags[i := t];
    assert s[i] == t;
    forall j | 0 <= j < |s|
      ensures s[j].ordinal <= t.ordinal
    {
      if j != i {
        assert s[j] == tags[j];
      }
    }
    CombineUnique(s, t);
    var k :| 0 <= k < |tags| && tags[k] == Combine(tags);
    assert Less(tags[k], t);
  }

  /** Raising one input never lowers the combined tag. */
  lemma CombineMonotone(tags: seq<VersionTag>, i: nat, t: VersionTag)
    requires i < |tags|
    requires tags[i].ordinal <= t.ordinal
    ensures Combine(tags).ordinal <= Combine(tags[i := t]).ordinal
  {
    var s := tags[i := t];
    var k :| 0 <= k < |tags| && tags[k] == Combine(tags);
    if k == i {
      assert s[i] == t;
    } else {
      assert s[k] == tags[k];
    }
  }

  /** The example at `VersionTag::zero`: the zero tag is below a new one. */
  method ZeroExample(c: Counter) returns (z: VersionTag, t: VersionTag)
    requires c.Valid()
    requires c.next as int < U64_MAX
    modifies c
    ensures c.Valid()
    ensures z == Zero() && Less(z, t)
    ensures t.ordinal as int == old(c.next) as int
  {
    z := Zero();
    t := New(c);
  }

  /** The example at `combine`: two new tags, their combination, then a
      notification of the first one and the combination again. */
  method CombineExample(c: Counter) returns (first: VersionTag, t1: VersionTag, t2: VersionTag, t3: VersionTag, t4: VersionTag)
    requires c.Valid()
    requires c.next as int + 2 < U64_MAX
    modifies c
    ensures c.Valid()
    ensures first.ordinal as int == old(c.next) as int
    ensures t1.ordinal as int == old(c.next) as int + 2
    ensures t2.ordinal as int == old(c.next) as int + 1
    ensures first != t3 && t2 == t3
    ensures t3 != t4 && t4 == t1
  {
    t1 := New(c);
    t2 := New(c);
    first := t1;
    t3 := Combine([t1, t2]);
    CombineNewest([t1], t2);
    assert [t1] + [t2] == [t1, t2];
    var before := [t1, t2];
    t1 := Notify(c, t1);
    t4 := Combine([t1, t2]);
    CombineAfterNotify(before, 0, t1);
    assert before[0 := t1] == [t1, t2];
  }
}
