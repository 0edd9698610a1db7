/** What each primitive stack operation does to a stack's contents, read
    top first (index 0 is the top). The in-place array code in module
    Stacks is proved to compute exactly these functions. */
module StackOps {

  /** swap: exchange the two topmost elements; no-op below two elements. */
  function Swapped(s: seq<int>): (r: seq<int>)
    ensures |r| == |s| && multiset(r) == multiset(s)
    ensures |s| >= 2 ==> r[0] == s[1] && r[1] == s[0]
    ensures forall i :: 2 <= i < |s| ==> r[i] == s[i]
  {
    if |s| < 2 then s
    else
      assert s == [s[0], s[1]] + s[2..];
      [s[1], s[0]] + s[2..]
  }

  /** push(src, dest): move the top of `src` onto the top of `dest`;
      no-op when `src` is empty. The result is the pair (src, dest). */
  function Transferred(src: seq<int>, dest: seq<int>): (r: (seq<int>, seq<int>))
    ensures |r.0| + |r.1| == |src| + |dest|
    ensures multiset(r.0) + multiset(r.1) == multiset(src) + multiset(dest)
    ensures src == [] ==> r == (src, dest)
    ensures src != [] ==> |r.0| == |src| - 1 && |r.1| == |dest| + 1 && r.1[0] == src[0]
    ensures src != [] ==> forall i :: 0 <= i < |src| - 1 ==> r.0[i] == src[i + 1]
    ensures src != [] ==> forall i :: 0 <= i < |dest| ==> r.1[i + 1] == dest[i]
  {
    if src == [] then (src, dest)
    else
      assert src == [src[0]] + src[1..];
      (src[1..], [src[0]] + dest)
  }

  /** rotate: the top element becomes the bottom; no-op below two elements. */
  function Rotated(s: seq<int>): (r: seq<int>)
    ensures |r| == |s| && multiset(r) == multiset(s)
    ensures |s| >= 2 ==> r[|s| - 1] == s[0]
    ensures forall i :: 0 <= i < |s| - 1 ==> r[i] == s[i + 1]
  {
    if |s| < 2 then s
    else
      assert s == [s[0]] + s[1..];
      s[1..] + [s[0]]
  }

  /** rev_rotate: the bottom element becomes the top; no-op below two elements. */
  function RevRotated(s: seq<int>): (r: seq<int>)
    ensures |r| == |s| && multiset(r) == multiset(s)
    ensures |s| >= 2 ==> r[0] == s[|s| - 1]
    ensures forall i :: 1 <= i < |s| ==> r[i] == s[i - 1]
  {
    if |s| < 2 then s
    else
      assert s == s[..|s| - 1] + [s[|s| - 1]];
      [s[|s| - 1]] + s[..|s| - 1]
  }

  /** Applying swap twice restores the original order. */
  lemma SwapTwice(s: seq<int>)
    ensures Swapped(Swapped(s)) == s
  {
    if |s| >= 2 {
      assert Swapped(Swapped(s)) == [s[0], s[1]] + s[2..];
    }
  }

  /** rev_rotate undoes rotate. */
  lemma RotateThenRevRotate(s: seq<int>)
    ensures RevRotated(Rotated(s)) == s
  {
    if |s| >= 2 {
      var r := Rotated(s);
      assert r[..|r| - 1] == s[1..];
    }
  }

  /** rotate undoes rev_rotate. */
  lemma RevRotateThenRotate(s: seq<int>)
    ensures Rotated(RevRotated(s)) == s
  {
    if |s| >= 2 {
      var r := RevRotated(s);
      assert r[1..] == s[..|s| - 1];
    }
  }

  /** `pb` followed by `pa` restores both stacks when A was not empty
      (and, with the roles exchanged, `pa` followed by `pb`). */
  lemma TransferBack(src: seq<int>, dest: seq<int>)
    requires src != []
    ensures var (s1, d1) := Transferred(src, dest);
            Transferred(d1, s1) == (dest, src)
  {
    var (s1, d1) := Transferred(src, dest);
    assert d1[1..] == dest;
    assert [d1[0]] + s1 == src;
  }
}
