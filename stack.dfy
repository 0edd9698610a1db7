/** The `t_stack` record of main.c: a heap array of `int` with its length,
    its allocated capacity and the extrema recorded while loading. The
    primitive operations shift the array in place, as the C code does. */
module Stacks {
  import opened CInt
  import opened StackOps

  /** The capacity after appending `n` values, one at a time, to a stack
      that held `s` values in an array of capacity `c`: before each append
      a full array doubles. */
  function GrownCapacity(c: nat, s: nat, n: nat): (cap: nat)
    ensures cap >= c
  {
    if n == 0 then c
    else
      var prev := GrownCapacity(c, s, n - 1);
      if s + n - 1 >= prev then 2 * prev else prev
  }

  /** `c` doubled `k` times. */
  function Doubled(c: nat, k: nat): (x: nat)
    ensures x >= c
  {
    if k == 0 then c else 2 * Doubled(c, k - 1)
  }

  /** Growing by doubling leaves room for every appended value and never
      allocates twice what is needed unless no growth happened at all. */
  lemma {:induction false} GrownCapacityBounds(c: nat, s: nat, n: nat)
    requires 0 < c && s <= c
    ensures s + n <= GrownCapacity(c, s, n)
    ensures GrownCapacity(c, s, n) == c || GrownCapacity(c, s, n) < 2 * (s + n)
  {
    if n > 0 {
      GrownCapacityBounds(c, s, n - 1);
    }
  }

  /** The capacity is only ever the initial one doubled some number of times. */
  lemma {:induction false} GrownCapacityDoubles(c: nat, s: nat, n: nat)
    ensures exists k: nat :: GrownCapacity(c, s, n) == Doubled(c, k)
  {
    if n > 0 {
      GrownCapacityDoubles(c, s, n - 1);
      var k: nat :| GrownCapacity(c, s, n - 1) == Doubled(c, k);
      if s + n - 1 >= GrownCapacity(c, s, n - 1) {
        assert GrownCapacity(c, s, n) == Doubled(c, k + 1);
      } else {
        assert GrownCapacity(c, s, n) == Doubled(c, k);
      }
    } else {
      assert GrownCapacity(c, s, n) == Doubled(c, 0);
    }
  }

  predicate Bounded(s: seq<int>, lo: int, hi: int) {
    forall i :: 0 <= i < |s| ==> lo <= s[i] <= hi
  }

  class Stack {
    var values: array<int>
    var size: nat
    var capacity: nat
    var maxVal: int
    var minVal: int

    ghost predicate Valid()
      reads this
    {
      0 < capacity == values.Length && size <= capacity
    }

    /** The stack, top first. */
    function Contents(): (s: seq<int>)
      reads this, values
      requires Valid()
      ensures |s| == size
    {
      values[..size]
    }

    /** init_stack: an empty stack of the given capacity whose extrema hold
        the sentinels INT_MIN (maximum) and INT_MAX (minimum). */
    constructor (capacity: nat)
      requires capacity > 0
      ensures Valid() && fresh(values)
      ensures Contents() == [] && this.capacity == capacity
      ensures maxVal == IntMin && minVal == IntMax
    {
      values := new int[capacity];
      size := 0;
      this.capacity := capacity;
      maxVal := IntMin;
      minVal := IntMax;
    }

    /** realloc: a fresh array of the new capacity holding the same contents. */
    method Reallocate(newCapacity: nat)
      requires Valid() && size <= newCapacity && 0 < newCapacity
      modifies this`values, this`capacity
      ensures Valid() && fresh(values)
      ensures capacity == newCapacity
      ensures Contents() == old(Contents())
    {
      var grown := new int[newCapacity];
      var k := 0;
      while k < size
        invariant 0 <= k <= size
        invariant Valid() && values == old(values) && capacity == old(capacity)
        invariant grown[..k] == values[..k]
      {
        grown[k] := values[k];
        k := k + 1;
      }
      values := grown;
      capacity := newCapacity;
    }

    /** One round of parse_and_add_values' loop: grow a full array to
        twice its capacity, store the value at the bottom, and widen the
        recorded extrema. */
    method AppendValue(val: int)
      requires Valid()
      modifies this, values
      ensures Valid() && (values == old(values) || fresh(values))
      ensures Contents() == old(Contents()) + [val]
      ensures capacity == if old(size) >= old(capacity) then 2 * old(capacity) else old(capacity)
      ensures maxVal == if val > old(maxVal) then val else old(maxVal)
      ensures minVal == if val < old(minVal) then val else old(minVal)
    {
      if size >= capacity {
        Reallocate(capacity * 2);
      }
      values[size] := val;
      size := size + 1;
      if val > maxVal { maxVal := val; }
      if val < minVal { minVal := val; }
    }

    /** parse_and_add_values: append already-parsed values at the bottom in
        input order, doubling the array whenever it is full, and widen the
        recorded extrema to cover every appended value. */
    method ParseAndAddValues(vals: seq<int>)
      requires Valid()
      modifies this, values
      ensures Valid() && (values == old(values) || fresh(values))
      ensures Contents() == old(Contents()) + vals
      ensures capacity == GrownCapacity(old(capacity), old(size), |vals|)
      ensures Bounded(vals, minVal, maxVal)
      ensures minVal <= old(minVal) && (minVal == old(minVal) || minVal in vals)
      ensures maxVal >= old(maxVal) && (maxVal == old(maxVal) || maxVal in vals)
    {
      ghost var c0, s0, before := capacity, size, Contents();
      var i := 0;
      while i < |vals|
        invariant 0 <= i <= |vals|
        invariant Valid() && (values == old(values) || fresh(values))
        invariant size == s0 + i
        invariant Contents() == before + vals[..i]
        invariant capacity == GrownCapacity(c0, s0, i)
        invariant Bounded(vals[..i], minVal, maxVal)
        invariant minVal <= old(minVal) && (minVal == old(minVal) || minVal in vals[..i])
        invariant maxVal >= old(maxVal) && (maxVal == old(maxVal) || maxVal in vals[..i])
      {
        AppendValue(vals[i]);
        assert vals[..i + 1] == vals[..i] + [vals[i]];
        i := i + 1;
      }
      assert vals[..i] == vals;
    }

    /** The first half of push: read the top, shift the rest one place
        towards the top, and shrink. */
    method RemoveTop() returns (val: int)
      requires Valid() && size > 0
      modifies this`size, values
      ensures Valid()
      ensures val == old(Contents())[0] && Contents() == old(Contents())[1..]
    {
      ghost var s := Contents();
      val := values[0];
      var i := 0;
      while i < size - 1
        invariant 0 <= i <= size - 1 && size == |s|
        invariant forall k :: 0 <= k < i ==> values[k] == s[k + 1]
        invariant forall k :: i <= k < |s| ==> values[k] == s[k]
      {
        values[i] := values[i + 1];
        i := i + 1;
      }
      size := size - 1;
      assert Contents() == s[1..];
    }

    /** The second half of push: shift everything one place towards the
        bottom, store the value on top, and grow. There is no capacity
        check, so the caller must leave room. */
    method InsertTop(val: int)
      requires Valid() && size < capacity
      modifies this`size, values
      ensures Valid()
      ensures Contents() == [val] + old(Contents())
    {
      ghost var d := Contents();
      var j := size;
      while j > 0
        invariant 0 <= j <= size && size == |d|
        invariant forall k :: j < k <= size ==> values[k] == d[k - 1]
        invariant forall k :: 0 <= k < j ==> values[k] == d[k]
      {
        values[j] := values[j - 1];
        j := j - 1;
      }
      values[0] := val;
      size := size + 1;
      assert Contents() == [val] + d;
    }

    /** swap */
    method Swap()
      requires Valid()
      modifies values
      ensures Contents() == Swapped(old(Contents()))
    {
      if size < 2 { return; }
      var tmp := values[0];
      values[0] := values[1];
      values[1] := tmp;
    }

    /** rotate: shift everything one place towards the top, old top last. */
    method Rotate()
      requires Valid()
      modifies values
      ensures Contents() == Rotated(old(Contents()))
    {
      if size < 2 { return; }
      ghost var s := values[..];
      var tmp := values[0];
      var i := 0;
      while i < size - 1
        invariant 0 <= i <= size - 1
        invariant forall k :: 0 <= k < i ==> values[k] == s[k + 1]
        invariant forall k :: i <= k < values.Length ==> values[k] == s[k]
      {
        values[i] := values[i + 1];
        i := i + 1;
      }
      values[size - 1] := tmp;
      assert Contents() == s[1..size] + [s[0]];
    }

    /** rev_rotate: shift everything one place towards the bottom, old
        bottom first. */
    method RevRotate()
      requires Valid()
      modifies values
      ensures Contents() == RevRotated(old(Contents()))
    {
      if size < 2 { return; }
      ghost var s := values[..];
      var tmp := values[size - 1];
      var i := size - 1;
      while i > 0
        invariant 0 <= i <= size - 1
        invariant forall k :: i < k < size ==> values[k] == s[k - 1]
        invariant forall k :: 0 <= k <= i ==> values[k] == s[k]
        invariant forall k :: size <= k < values.Length ==> values[k] == s[k]
      {
        values[i] := values[i - 1];
        i := i - 1;
      }
      values[0] := tmp;
      ghost var r := RevRotated(s[..size]);
      assert forall k :: 0 <= k < size ==> values[k] == r[k];
    }
  }

  /** push(src, dest): take the top of `src` and make it the top of `dest`.
      The C code writes `dest->values[dest->size]` without checking the
      capacity, so a caller must leave room in `dest`. */
  method Push(src: Stack, dest: Stack)
    requires src.Valid() && dest.Valid()
    requires src != dest && src.values != dest.values
    requires src.size > 0 ==> dest.size < dest.capacity
    modifies src`size, src.values, dest`size, dest.values
    ensures src.Valid() && dest.Valid()
    ensures (src.Contents(), dest.Contents()) == Transferred(old(src.Contents()), old(dest.Contents()))
  {
    if src.size == 0 { return; }
    ghost var d := dest.Contents();
    var val := src.RemoveTop();
    assert dest.Contents() == d;
    dest.InsertTop(val);
  }
}
