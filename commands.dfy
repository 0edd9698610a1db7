/** exec_cmd of main.c: the eleven push_swap instructions and what each
    does to the pair of stacks (A, B). Any other token changes nothing. */
module Commands {
  import opened StackOps
  import opened Stacks

  datatype Option<T> = None | Some(value: T)

  datatype Op = Sa | Sb | Ss | Pa | Pb | Ra | Rb | Rr | Rra | Rrb | Rrr

  /** The instruction's spelling on the command stream. */
  function Name(op: Op): string {
    match op
    case Sa => "sa"
    case Sb => "sb"
    case Ss => "ss"
    case Pa => "pa"
    case Pb => "pb"
    case Ra => "ra"
    case Rb => "rb"
    case Rr => "rr"
    case Rra => "rra"
    case Rrb => "rrb"
    case Rrr => "rrr"
  }

  /** The strcmp chain of exec_cmd: matching is exact and case-sensitive,
      and a token that spells no instruction is recognised as none. */
  function Parse(token: string): (r: Option<Op>)
    ensures r.Some? ==> Name(r.value) == token
    ensures r.None? ==> forall op: Op :: Name(op) != token
  {
    if token == "sa" then Some(Sa)
    else if token == "sb" then Some(Sb)
    else if token == "ss" then Some(Ss)
    else if token == "pa" then Some(Pa)
    else if token == "pb" then Some(Pb)
    else if token == "ra" then Some(Ra)
    else if token == "rb" then Some(Rb)
    else if token == "rr" then Some(Rr)
    else if token == "rra" then Some(Rra)
    else if token == "rrb" then Some(Rrb)
    else if token == "rrr" then Some(Rrr)
    else None
  }

  /** Every instruction is recognised from its own spelling. */
  lemma ParseName(op: Op)
    ensures Parse(Name(op)) == Some(op)
  {
  }

  /** The effect of one instruction on (A, B). */
  function Apply(op: Op, a: seq<int>, b: seq<int>): (r: (seq<int>, seq<int>))
    ensures |r.0| + |r.1| == |a| + |b|
    ensures multiset(r.0) + multiset(r.1) == multiset(a) + multiset(b)
  {
    match op
    case Sa => (Swapped(a), b)
    case Sb => (a, Swapped(b))
    case Ss => (Swapped(a), Swapped(b))
    case Pa =>
      var t := Transferred(b, a);
      assert multiset(t.0) + multiset(t.1) == multiset(b) + multiset(a);
      assert multiset(t.1) + multiset(t.0) == multiset(t.0) + multiset(t.1);
      (t.1, t.0)
    case Pb => Transferred(a, b)
    case Ra => (Rotated(a), b)
    case Rb => (a, Rotated(b))
    case Rr => (Rotated(a), Rotated(b))
    case Rra => (RevRotated(a), b)
    case Rrb => (a, RevRotated(b))
    case Rrr => (RevRotated(a), RevRotated(b))
  }

  /** The effect of one token on (A, B). */
  function Exec(token: string, a: seq<int>, b: seq<int>): (r: (seq<int>, seq<int>))
    ensures |r.0| + |r.1| == |a| + |b|
    ensures multiset(r.0) + multiset(r.1) == multiset(a) + multiset(b)
    ensures (forall op: Op :: Name(op) != token) ==> r == (a, b)
  {
    match Parse(token)
    case None => (a, b)
    case Some(op) => Apply(op, a, b)
  }

  /** push never grows its destination: `pa` needs room in A and `pb`
      room in B whenever there is something to move. */
  predicate Fits(token: string, a: seq<int>, b: seq<int>, capA: int, capB: int) {
    (Parse(token) == Some(Pa) && b != [] ==> |a| < capA) &&
    (Parse(token) == Some(Pb) && a != [] ==> |b| < capB)
  }

  /** exec_cmd on the two stacks. */
  method ExecCmd(cmd: string, a: Stack, b: Stack)
    requires a.Valid() && b.Valid() && a != b && a.values != b.values
    requires Fits(cmd, a.Contents(), b.Contents(), a.capacity, b.capacity)
    modifies a`size, a.values, b`size, b.values
    ensures a.Valid() && b.Valid()
    ensures (a.Contents(), b.Contents()) == Exec(cmd, old(a.Contents()), old(b.Contents()))
  {
    match Parse(cmd)
    case None =>
    case Some(op) => ApplyOp(op, a, b);
  }

  /** The branch of exec_cmd that the recognised instruction selects. */
  method ApplyOp(op: Op, a: Stack, b: Stack)
    requires a.Valid() && b.Valid() && a != b && a.values != b.values
    requires Fits(Name(op), a.Contents(), b.Contents(), a.capacity, b.capacity)
    modifies a`size, a.values, b`size, b.values
    ensures a.Valid() && b.Valid()
    ensures (a.Contents(), b.Contents()) == Apply(op, old(a.Contents()), old(b.Contents()))
  {
    ParseName(op);
    match op
    case Sa => a.Swap();
    case Sb => b.Swap();
    case Ss => a.Swap(); b.Swap();
    case Pa => Push(b, a);
    case Pb => Push(a, b);
    case Ra => a.Rotate();
    case Rb => b.Rotate();
    case Rr => a.Rotate(); b.Rotate();
    case Rra => a.RevRotate();
    case Rrb => b.RevRotate();
    case Rrr => a.RevRotate(); b.RevRotate();
  }

  /** The effect of a whole command stream, token after token. */
  function ExecAll(tokens: seq<string>, a: seq<int>, b: seq<int>): (r: (seq<int>, seq<int>))
    ensures |r.0| + |r.1| == |a| + |b|
    ensures multiset(r.0) + multiset(r.1) == multiset(a) + multiset(b)
  {
    if tokens == [] then (a, b)
    else
      var (a1, b1) := Exec(tokens[0], a, b);
      ExecAll(tokens[1..], a1, b1)
  }

  /** Every push along the stream has room in its destination. */
  predicate TraceFits(tokens: seq<string>, a: seq<int>, b: seq<int>, capA: int, capB: int) {
    tokens == [] ||
    (Fits(tokens[0], a, b, capA, capB) &&
     var (a1, b1) := Exec(tokens[0], a, b);
     TraceFits(tokens[1..], a1, b1, capA, capB))
  }

  /** Stacks that can each hold every value never overflow, whatever the
      command stream. */
  lemma {:induction false} RoomyTraceFits(tokens: seq<string>, a: seq<int>, b: seq<int>, capA: int, capB: int)
    requires |a| + |b| <= capA && |a| + |b| <= capB
    ensures TraceFits(tokens, a, b, capA, capB)
  {
    if tokens != [] {
      var (a1, b1) := Exec(tokens[0], a, b);
      RoomyTraceFits(tokens[1..], a1, b1, capA, capB);
    }
  }

  lemma BoundedByMultiset(s: seq<int>, t: seq<int>, u: seq<int>, v: seq<int>, lo: int, hi: int)
    requires multiset(s) + multiset(t) == multiset(u) + multiset(v)
    requires Bounded(u, lo, hi) && Bounded(v, lo, hi)
    ensures Bounded(s, lo, hi) && Bounded(t, lo, hi)
  {
    forall i | 0 <= i < |s| ensures lo <= s[i] <= hi {
      assert s[i] in multiset(u) + multiset(v);
    }
    forall i | 0 <= i < |t| ensures lo <= t[i] <= hi {
      assert t[i] in multiset(u) + multiset(v);
    }
  }

  /** No command creates a value: bounds that hold for every value before
      the stream hold for every value after it. */
  lemma ExecAllKeepsBounds(tokens: seq<string>, a: seq<int>, b: seq<int>, lo: int, hi: int)
    requires Bounded(a, lo, hi) && Bounded(b, lo, hi)
    ensures Bounded(ExecAll(tokens, a, b).0, lo, hi) && Bounded(ExecAll(tokens, a, b).1, lo, hi)
  {
    var r := ExecAll(tokens, a, b);
    BoundedByMultiset(r.0, r.1, a, b, lo, hi);
  }
}
