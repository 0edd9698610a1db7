/** The start-up half of main in main.c (both stacks created with room for
    2 * argc values, every argument's numbers loaded into A), and what the
    model proves about the program as a whole: with the scaling range fixed
    at start-up, every bar drawn has between one and `barWidth` cells
    whatever commands follow, and B's fixed capacity can be too small. */
module Visualizer {
  import opened CInt
  import opened Stacks
  import opened Commands
  import opened Render

  /** The numbers of all arguments, in argument order. */
  function Flatten(args: seq<seq<int>>): seq<int> {
    if args == [] then [] else Flatten(args[..|args| - 1]) + args[|args| - 1]
  }

  predicate AllInt(vals: seq<int>) {
    forall i :: 0 <= i < |vals| ==> IsInt(vals[i])
  }

  /** Both stacks start with room for 2 * argc values, where argc counts
      the program name as well as the arguments. */
  function InitialCapacity(argc: nat): nat {
    argc * 2
  }

  /** Loading in two rounds grows the array exactly as loading everything
      in one round would. */
  lemma {:induction false} GrownCapacityCompose(c: nat, s: nat, n1: nat, n2: nat)
    ensures GrownCapacity(GrownCapacity(c, s, n1), s + n1, n2) == GrownCapacity(c, s, n1 + n2)
  {
    if n2 > 0 {
      GrownCapacityCompose(c, s, n1, n2 - 1);
    }
  }

  /** The stacks as main leaves them before the display starts: `null`
      for the usage error (no argument), otherwise A holding every number
      in order, top first, with its extrema, and B empty with its
      sentinels. Numbers are already parsed (atoi is not modelled). */
  method Startup(args: seq<seq<int>>) returns (a: Stack?, b: Stack?)
    requires AllInt(Flatten(args))
    ensures args == [] <==> a == null
    ensures args == [] <==> b == null
    ensures a != null && b != null ==>
              fresh(a) && fresh(b) && a != b && a.values != b.values &&
              a.Valid() && b.Valid()
    ensures a != null && b != null ==>
              a.Contents() == Flatten(args) &&
              a.capacity == GrownCapacity(InitialCapacity(|args| + 1), 0, |Flatten(args)|) &&
              Bounded(a.Contents(), a.minVal, a.maxVal) &&
              (a.Contents() == [] ==> a.minVal == IntMax && a.maxVal == IntMin) &&
              (a.Contents() != [] ==> a.minVal in a.Contents() && a.maxVal in a.Contents())
    ensures a != null && b != null ==>
              b.Contents() == [] && b.capacity == InitialCapacity(|args| + 1) &&
              b.minVal == IntMax && b.maxVal == IntMin
  {
    if |args| == 0 {
      return null, null;
    }
    var capacity := InitialCapacity(|args| + 1);
    var sa := new Stack(capacity);
    var sb := new Stack(capacity);
    var i := 0;
    while i < |args|
      invariant 0 <= i <= |args|
      invariant fresh(sa) && fresh(sa.values) && sa.Valid() && sa.values != sb.values
      invariant sa.Contents() == Flatten(args[..i])
      invariant sa.capacity == GrownCapacity(capacity, 0, |Flatten(args[..i])|)
      invariant Bounded(sa.Contents(), sa.minVal, sa.maxVal)
      invariant sa.Contents() == [] ==> sa.minVal == IntMax && sa.maxVal == IntMin
      invariant sa.Contents() != [] ==> sa.minVal in sa.Contents() && sa.maxVal in sa.Contents()
      invariant sb.Valid() && sb.Contents() == [] && sb.capacity == capacity
      invariant sb.minVal == IntMax && sb.maxVal == IntMin
    {
      FlattenStep(args, i);
      ghost var before, lo0, hi0 := sa.Contents(), sa.minVal, sa.maxVal;
      sa.ParseAndAddValues(args[i]);
      GrownCapacityCompose(capacity, 0, |before|, |args[i]|);
      LoadedExtrema(before, args[i], lo0, hi0, sa.minVal, sa.maxVal);
      i := i + 1;
    }
    assert args[..i] == args;
    return sa, sb;
  }

  /** Loading argument `i` extends what was loaded before it, and all its
      numbers are int values. */
  lemma FlattenStep(args: seq<seq<int>>, i: nat)
    requires i < |args| && AllInt(Flatten(args))
    ensures Flatten(args[..i + 1]) == Flatten(args[..i]) + args[i]
    ensures AllInt(args[i])
  {
    assert args[..i + 1][..i] == args[..i];
    FlattenPrefixInt(args, i + 1);
    forall j | 0 <= j < |args[i]| ensures IsInt(args[i][j]) {
      assert args[i][j] == Flatten(args[..i + 1])[|Flatten(args[..i])| + j];
    }
  }

  lemma {:induction false} FlattenPrefixInt(args: seq<seq<int>>, k: nat)
    requires k <= |args| && AllInt(Flatten(args))
    ensures AllInt(Flatten(args[..k]))
    decreases |args|
  {
    if k < |args| {
      var init := args[..|args| - 1];
      assert Flatten(args) == Flatten(init) + args[|args| - 1];
      assert AllInt(Flatten(init)) by {
        forall j | 0 <= j < |Flatten(init)| ensures IsInt(Flatten(init)[j]) {
          assert Flatten(init)[j] == Flatten(args)[j];
        }
      }
      FlattenPrefixInt(init, k);
      assert init[..k] == args[..k];
    } else {
      assert args[..k] == args;
    }
  }

  /** One round of loading keeps the recorded extrema exact: they bound
      every value of A and are themselves values of A, or the sentinels
      while A is empty. */
  lemma LoadedExtrema(before: seq<int>, vals: seq<int>, lo0: int, hi0: int, lo: int, hi: int)
    requires Bounded(before, lo0, hi0)
    requires before == [] ==> lo0 == IntMax && hi0 == IntMin
    requires before != [] ==> lo0 in before && hi0 in before
    requires AllInt(vals) && Bounded(vals, lo, hi)
    requires lo <= lo0 && (lo == lo0 || lo in vals)
    requires hi >= hi0 && (hi == hi0 || hi in vals)
    ensures Bounded(before + vals, lo, hi)
    ensures before + vals == [] ==> lo == IntMax && hi == IntMin
    ensures before + vals != [] ==> lo in before + vals && hi in before + vals
  {
    var all := before + vals;
    forall j | 0 <= j < |all| ensures lo <= all[j] <= hi {
      if j >= |before| { assert all[j] == vals[j - |before|]; }
    }
    if before == [] && vals != [] {
      assert IsInt(vals[0]);
      if lo == lo0 { assert vals[0] == lo; }
      if hi == hi0 { assert vals[0] == hi; }
    }
  }

  /** Stacks large enough for every value never overflow: with B given
      room for all loaded values as well, every command stream fits. */
  function SafeCapacity(argc: nat, loaded: nat): (c: nat)
    ensures c >= InitialCapacity(argc) && c >= loaded
  {
    if loaded > InitialCapacity(argc) then loaded else InitialCapacity(argc)
  }

  /** `n` copies of the `pb` instruction. */
  function Pbs(n: nat): (tokens: seq<string>)
    ensures |tokens| == n && forall i :: 0 <= i < n ==> tokens[i] == "pb"
  {
    seq(n, _ => "pb")
  }

  /** `n` successive `pb` from an A of at least `n` values only fit when
      B has room for `n` more values. */
  lemma {:induction false} PbsNeedRoom(n: nat, a: seq<int>, b: seq<int>, capA: int, capB: int)
    requires n <= |a| && TraceFits(Pbs(n), a, b, capA, capB)
    ensures n == 0 || |b| + n <= capB
  {
    if n > 0 {
      var tokens := Pbs(n);
      assert tokens[0] == "pb" && Parse("pb") == Some(Pb);
      assert tokens[1..] == Pbs(n - 1);
      var (a1, b1) := Exec("pb", a, b);
      assert |a1| == |a| - 1 && |b1| == |b| + 1;
      PbsNeedRoom(n - 1, a1, b1, capA, capB);
    }
  }

  /** As written, B gets room for 2 * argc values only. One argument
      holding five numbers gives argc = 2 and room for four, so five `pb`
      cannot all fit: the fifth writes past the end of B's array. */
  lemma SmallBOverflows(capA: int)
    ensures !TraceFits(Pbs(5), Flatten([[1, 2, 3, 4, 5]]), [], capA, InitialCapacity(2))
  {
    var vals := Flatten([[1, 2, 3, 4, 5]]);
    assert [[1, 2, 3, 4, 5]][..0] == [];
    assert vals == [1, 2, 3, 4, 5];
    if TraceFits(Pbs(5), vals, [], capA, InitialCapacity(2)) {
      PbsNeedRoom(5, vals, [], capA, InitialCapacity(2));
      assert false;
    }
  }

  /** With B sized by SafeCapacity, no command stream ever pushes past
      the end of either array. */
  lemma SafeCapacityFitsEveryTrace(args: seq<seq<int>>, tokens: seq<string>)
    ensures var n := |Flatten(args)|;
            var argc := |args| + 1;
            TraceFits(tokens, Flatten(args), [],
                      GrownCapacity(InitialCapacity(argc), 0, n), SafeCapacity(argc, n))
  {
    var n := |Flatten(args)|;
    GrownCapacityBounds(InitialCapacity(|args| + 1), 0, n);
    RoomyTraceFits(tokens, Flatten(args), [],
                   GrownCapacity(InitialCapacity(|args| + 1), 0, n), SafeCapacity(|args| + 1, n));
  }

  /** The extrema recorded while loading are never refreshed, and B keeps
      its sentinels, yet after any command stream every bar drawn still
      has between one and `barWidth` cells and lies on the screen: no
      command creates a value, so the loaded range still bounds them all. */
  lemma BarsFitAfterAnyCommands(vals: seq<int>, lo: int, hi: int, tokens: seq<string>,
                                maxH: int, maxW: int, title: Title)
    requires IsInt(lo) && IsInt(hi) && Bounded(vals, lo, hi)
    requires IsInt(maxH) && IsInt(maxW)
    ensures var r := ExecAll(tokens, vals, []);
            var va, vb := StackView(r.0, lo, hi), StackView(r.1, IntMax, IntMin);
            ViewInRange(va) && ViewInRange(vb) &&
            var s := RenderScreen(maxH, maxW, title, va, vb);
            s.Frame? ==>
              (forall i :: 0 <= i < |s.barsA| ==> 1 <= s.barsA[i].cells <= s.barWidth) &&
              (forall i :: 0 <= i < |s.barsB| ==> 1 <= s.barsB[i].cells <= s.barWidth)
  {
    var r := ExecAll(tokens, vals, []);
    ExecAllKeepsBounds(tokens, vals, [], lo, hi);
    var va, vb := StackView(r.0, lo, hi), StackView(r.1, IntMax, IntMin);
    ScaleWithSentinelB(va, vb);
    FrameBarsFit(maxH, maxW, title, va, vb);
  }
}
