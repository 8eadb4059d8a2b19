/**
 * `ImmutableAppendOnlyArray<T>`: a versioned append-only buffer.
 *
 * A view is a pair (store, length). The store, a `SourceBuffer`, is a mutable
 * object holding an array and a committed length shared by every view on it.
 * A view reads the first `length` committed elements of its store. Appending
 * through a view whose length equals the store's committed length extends the
 * store in place; appending through any other (stale) view copies the store's
 * committed elements into a fresh store first.
 */
module AppendOnlyArrays {

  function Max(a: int, b: int): int { if a < b then b else a }

  /** The smallest capacity a store allocates. */
  const MinimumCapacity := 16

  /**
   * The shared backing store. `buffer` stays null until the first `Reserve`;
   * `length` counts the committed elements, always a prefix of `buffer`.
   */
  class SourceBuffer<T(0)> {
    var buffer: array?<T>
    var length: nat

    ghost predicate Valid()
      reads this
    {
      if buffer == null then length == 0 else length <= buffer.Length
    }

    function Capacity(): nat
      reads this
    {
      if buffer == null then 0 else buffer.Length
    }

    /** The committed elements (`Buffer` in the original). */
    function Buffer(): (s: seq<T>)
      reads this, buffer
      requires Valid()
      ensures |s| == length
    {
      if buffer == null then [] else buffer[..length]
    }

    constructor ()
      ensures Valid() && buffer == null && length == 0 && Buffer() == []
    {
      buffer := null;
      length := 0;
    }

    /**
     * Makes room for `minimumSize` more elements after the committed ones and
     * returns that room as (array, start). The committed elements are kept;
     * when the array must grow its capacity becomes the larger of the
     * required capacity and twice the old one, and the old array is left as
     * it was.
     */
    method Reserve(minimumSize: nat) returns (region: array<T>, start: nat)
      requires Valid()
      modifies this`buffer
      ensures Valid()
      ensures region == buffer && start == length
      ensures start + minimumSize <= region.Length
      ensures Buffer() == old(Buffer())
      ensures old(buffer) == null ==>
                fresh(buffer) && buffer.Length == Max(minimumSize, MinimumCapacity)
      ensures old(buffer) != null && length + minimumSize <= old(buffer.Length) ==>
                buffer == old(buffer)
      ensures old(buffer) != null && length + minimumSize > old(buffer.Length) ==>
                fresh(buffer) &&
                buffer.Length == Max(length + minimumSize, 2 * old(buffer.Length)) &&
                buffer[..old(buffer.Length)] == old(buffer[..])
    {
      var requiredCapacity := length + minimumSize;
      if buffer == null {
        buffer := new T[Max(requiredCapacity, MinimumCapacity)];
        return buffer, 0;
      }
      if requiredCapacity <= buffer.Length {
        return buffer, length;
      }
      var newCapacity := Max(requiredCapacity, buffer.Length * 2);
      var newBuffer := new T[newCapacity];
      CopyInto(buffer[..], newBuffer, 0);
      buffer := newBuffer;
      return buffer, length;
    }

    /** Commits `count` more elements of the reserved room. */
    method Advance(count: nat)
      requires Valid()
      requires length + count <= Capacity()
      modifies this`length
      ensures Valid()
      ensures length == old(length) + count
      ensures Buffer() == old(Buffer()) + (if buffer == null then [] else buffer[old(length)..length])
    {
      length := length + count;
    }
  }

  /** Copies `values` into `dest` starting at `start`; nothing else in `dest` changes. */
  method CopyInto<T>(values: seq<T>, dest: array<T>, start: nat)
    requires start + |values| <= dest.Length
    modifies dest
    ensures dest[..] == old(dest[..start]) + values + old(dest[start + |values|..])
  {
    var i := 0;
    while i < |values|
      invariant 0 <= i <= |values|
      invariant dest[..start] == old(dest[..start])
      invariant dest[start..start + i] == values[..i]
      invariant dest[start + |values|..] == old(dest[start + |values|..])
      invariant dest[start + i..start + |values|] == old(dest[start + i..start + |values|])
    {
      dest[start + i] := values[i];
      i := i + 1;
    }
    assert dest[..] == dest[..start] + dest[start..start + |values|] + dest[start + |values|..];
  }

  /** A view: a store (absent for the empty default view) and the number of its elements it sees. */
  datatype ImmutableAppendOnlyArray<T(0)> = ImmutableAppendOnlyArray(source: SourceBuffer?<T>, length: nat)

  /** The default view: no store, length 0. */
  function Empty<T(0)>(): (a: ImmutableAppendOnlyArray<T>)
    ensures Valid(a) && a.length == 0
  {
    ImmutableAppendOnlyArray(null, 0)
  }

  /** The objects a view reads. */
  function Footprint<T(0)>(a: ImmutableAppendOnlyArray<T>): set<object>
    reads a.source
  {
    if a.source == null then {}
    else if a.source.buffer == null then {a.source}
    else {a.source, a.source.buffer}
  }

  /** A view never claims more than its store has committed. */
  ghost predicate Valid<T(0)>(a: ImmutableAppendOnlyArray<T>)
    reads a.source
  {
    if a.source == null then a.length == 0
    else a.source.Valid() && a.length <= a.source.length
  }

  /** The elements a view reads: the first `length` committed elements of its store. */
  function AsSpan<T(0)>(a: ImmutableAppendOnlyArray<T>): (s: seq<T>)
    reads a.source, Footprint(a)
    requires Valid(a)
    ensures |s| == a.length
    ensures a.source != null ==> s == a.source.Buffer()[..a.length]
  {
    if a.source == null then [] else a.source.Buffer()[..a.length]
  }

  /** What a store has committed, or nothing when the view has no store. */
  function Committed<T(0)>(a: ImmutableAppendOnlyArray<T>): (s: seq<T>)
    reads a.source, Footprint(a)
    requires Valid(a)
    ensures AsSpan(a) <= s
  {
    if a.source == null then [] else a.source.Buffer()
  }

  /** A view is current when nothing has been committed past it. */
  predicate IsCurrent<T(0)>(a: ImmutableAppendOnlyArray<T>)
    reads a.source
  {
    a.source == null || a.length == a.source.length
  }

  lemma CurrentViewReadsAllCommitted<T(0)>(a: ImmutableAppendOnlyArray<T>)
    requires Valid(a) && IsCurrent(a)
    ensures AsSpan(a) == Committed(a)
  {
  }

  /** A view over all that a store has committed (the private constructor). */
  function OfSource<T(0)>(source: SourceBuffer<T>): (a: ImmutableAppendOnlyArray<T>)
    reads source
    requires source.Valid()
    ensures Valid(a) && IsCurrent(a) && a.source == source
  {
    ImmutableAppendOnlyArray(source, source.length)
  }

  /**
   * Appends `values` to the view `a` and returns the new view.
   * - no values: `a` itself;
   * - no store: a fresh store holding exactly `values`;
   * - current view: the same store, extended in place;
   * - stale view: a fresh store holding ALL the committed elements of the old
   *   store (not only the `a.length` that `a` sees) followed by `values`;
   *   the old store is not touched.
   * In every case the old store's committed elements stay as they were, so
   * every view on it keeps reading the same elements.
   */
  method AddRange<T(0)>(a: ImmutableAppendOnlyArray<T>, values: seq<T>) returns (r: ImmutableAppendOnlyArray<T>)
    requires Valid(a)
    modifies Footprint(a)
    ensures Valid(a) && Valid(r)
    ensures values == [] ==> r == a && (a.source != null ==> unchanged(a.source))
    ensures values != [] ==> IsCurrent(r) && r.length == old(|Committed(a)|) + |values|
    ensures values != [] ==> AsSpan(r) == old(Committed(a)) + values
    ensures values != [] && a.source == null ==>
              fresh(r.source) && r.source.Capacity() == Max(|values|, MinimumCapacity)
    ensures values != [] && a.source != null && old(IsCurrent(a)) ==>
              r.source == a.source && AsSpan(r) == old(AsSpan(a)) + values
    ensures values != [] && a.source != null && !old(IsCurrent(a)) ==>
              fresh(r.source) && unchanged(a.source) &&
              (a.source.buffer != null ==> unchanged(a.source.buffer)) &&
              r.source.Capacity() == old(a.source.length) + Max(|values|, MinimumCapacity)
    ensures a.source != null ==> old(Committed(a)) <= Committed(a)
    ensures AsSpan(a) == old(AsSpan(a))
    ensures fresh(Footprint(r) - old(Footprint(a)))
    ensures r.source != a.source ==> fresh(r.source) && r.source.buffer != null && fresh(r.source.buffer)
  {
    if values == [] {
      return a;
    }
    if a.source == null {
      var source := NewSourceWith([], values, |values|);
      return OfSource(source);
    }
    if a.length == a.source.length {
      AppendInPlace(a.source, values);
      return OfSource(a.source);
    }
    var source := NewSourceWith(a.source.Buffer(), values, a.source.length + Max(|values|, MinimumCapacity));
    return OfSource(source);
  }

  /** A fresh store of capacity `Max(size, MinimumCapacity)` committing `prefix + values`. */
  method NewSourceWith<T(0)>(prefix: seq<T>, values: seq<T>, size: nat) returns (source: SourceBuffer<T>)
    requires |prefix| + |values| <= size
    ensures fresh(source) && fresh(source.buffer) && source.Valid()
    ensures source.Capacity() == Max(size, MinimumCapacity)
    ensures source.Buffer() == prefix + values
  {
    source := new SourceBuffer<T>();
    var region, start := source.Reserve(size);
    CopyInto(prefix, region, 0);
    CopyInto(values, region, |prefix|);
    source.Advance(|prefix| + |values|);
    assert source.Buffer() == region[..|prefix|] + region[|prefix|..|prefix| + |values|];
  }

  /** Reserves room in `source`, copies `values` there and commits them. */
  method AppendInPlace<T(0)>(source: SourceBuffer<T>, values: seq<T>)
    requires source.Valid()
    modifies source, source.buffer
    ensures source.Valid()
    ensures source.Buffer() == old(source.Buffer()) + values
    ensures source.buffer == old(source.buffer) || fresh(source.buffer)
  {
    var region, start := source.Reserve(|values|);
    CopyInto(values, region, start);
    source.Advance(|values|);
    assert source.Buffer() == region[..start] + region[start..start + |values|];
  }

  /** `Add(value)` is `AddRange([value])`. */
  method Add<T(0)>(a: ImmutableAppendOnlyArray<T>, value: T) returns (r: ImmutableAppendOnlyArray<T>)
    requires Valid(a)
    modifies Footprint(a)
    ensures Valid(a) && Valid(r)
    ensures IsCurrent(r) && r.length == old(|Committed(a)|) + 1
    ensures AsSpan(r) == old(Committed(a)) + [value]
    ensures a.source == null ==> fresh(r.source) && r.source.Capacity() == Max(1, MinimumCapacity)
    ensures a.source != null && old(IsCurrent(a)) ==> r.source == a.source
    ensures a.source != null && !old(IsCurrent(a)) ==>
              fresh(r.source) && unchanged(a.source) &&
              (a.source.buffer != null ==> unchanged(a.source.buffer)) &&
              r.source.Capacity() == old(a.source.length) + Max(1, MinimumCapacity)
    ensures a.source != null ==> old(Committed(a)) <= Committed(a)
    ensures AsSpan(a) == old(AsSpan(a))
    ensures fresh(Footprint(r) - old(Footprint(a)))
    ensures r.source != a.source ==> fresh(r.source) && r.source.buffer != null && fresh(r.source.buffer)
  {
    r := AddRange(a, [value]);
  }

  /**
   * Snapshot isolation: once a store's committed elements have only been
   * extended, every view that was valid on it before still is, and still
   * reads the same elements.
   */
  twostate lemma ViewOnGrownStore<T(0)>(v: ImmutableAppendOnlyArray<T>)
    requires old(Valid(v)) && v.source != null && v.source.Valid()
    requires old(v.source.Buffer()) <= v.source.Buffer()
    ensures Valid(v) && AsSpan(v) == old(AsSpan(v))
  {
  }

  /** Appending twice through successive views: the first view still reads its three elements. */
  method AppendTwice() returns (first: seq<int>, second: seq<int>)
    ensures first == [1, 2, 3]
    ensures second == [1, 2, 3, 4, 5]
  {
    var v1 := AddRange(Empty(), [1, 2, 3]);
    var v2 := AddRange(v1, [4, 5]);
    first, second := AsSpan(v1), AsSpan(v2);
  }

  /**
   * Branching twice from the same view: the second branch is taken through a
   * stale view, and because the stale path copies everything the store has
   * committed it also sees the first branch's elements.
   */
  method BranchTwice() returns (base: seq<int>, branchA: seq<int>, branchB: seq<int>)
    ensures base == [1, 2, 3]
    ensures branchA == [1, 2, 3, 4, 5]
    ensures branchB == [1, 2, 3, 4, 5, 6, 7]
  {
    var v1 := AddRange(Empty(), [1, 2, 3]);
    var v2a := AddRange(v1, [4, 5]);
    var v2b := AddRange(v1, [6, 7]);
    base, branchA, branchB := AsSpan(v1), AsSpan(v2a), AsSpan(v2b);
  }

  /**
   * `AddRange` with the stale path copying only the `a.length` elements the
   * view reads, so two branches from one view stay apart: the result always
   * reads the view's own elements followed by `values`.
   */
  method AddRangeFromView<T(0)>(a: ImmutableAppendOnlyArray<T>, values: seq<T>) returns (r: ImmutableAppendOnlyArray<T>)
    requires Valid(a)
    modifies Footprint(a)
    ensures Valid(a) && Valid(r)
    ensures AsSpan(r) == old(AsSpan(a)) + values
    ensures values != [] ==> IsCurrent(r)
    ensures values != [] && a.source != null && old(IsCurrent(a)) ==> r.source == a.source
    ensures values != [] && a.source != null && !old(IsCurrent(a)) ==>
              unchanged(a.source) && (a.source.buffer != null ==> unchanged(a.source.buffer))
    ensures AsSpan(a) == old(AsSpan(a))
    ensures a.source != null ==> old(Committed(a)) <= Committed(a)
    ensures fresh(Footprint(r) - old(Footprint(a)))
    ensures r.source != a.source ==> fresh(r.source) && r.source.buffer != null && fresh(r.source.buffer)
  {
    if values == [] {
      return a;
    }
    if a.source == null {
      var source := NewSourceWith([], values, |values|);
      return OfSource(source);
    }
    if a.length == a.source.length {
      AppendInPlace(a.source, values);
      return OfSource(a.source);
    }
    var source := NewSourceWith(AsSpan(a), values, a.source.length + Max(|values|, MinimumCapacity));
    return OfSource(source);
  }

  /** Branching twice from the same view with the corrected stale path: the branches stay apart. */
  method BranchTwiceFromView() returns (base: seq<int>, branchA: seq<int>, branchB: seq<int>)
    ensures base == [1, 2, 3]
    ensures branchA == [1, 2, 3, 4, 5]
    ensures branchB == [1, 2, 3, 6, 7]
  {
    var v1 := AddRangeFromView(Empty(), [1, 2, 3]);
    var v2a := AddRangeFromView(v1, [4, 5]);
    var v2b := AddRangeFromView(v1, [6, 7]);
    base, branchA, branchB := AsSpan(v1), AsSpan(v2a), AsSpan(v2b);
  }
}
