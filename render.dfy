/** The arithmetic of draw_bar and render_screen in main.c: what is drawn
    where, given the terminal size and the two stacks. The ncurses calls
    themselves are replaced by the values that would be handed to them. */
module Render {
  import opened CInt
  import opened Stacks

  const MinWidth: int := 32
  const MinHeight: int := 15

  /** What render_screen reads of one stack. */
  datatype StackView = StackView(values: seq<int>, minVal: int, maxVal: int)

  predicate ViewInRange(v: StackView) {
    IsInt(v.minVal) && IsInt(v.maxVal) && forall i :: 0 <= i < |v.values| ==> IsInt(v.values[i])
  }

  /** One row of a column: the value printed at (row, col) followed by
      `cells` bar characters. */
  datatype Bar = Bar(row: int, col: int, value: int, cells: nat)

  /** The first header line. */
  datatype Title = PressSpace | LastCommand(cmd: string)

  /** A frame: either the centred "Window too small!" placeholder, or the
      title, a horizontal rule of `ruleWidth` dashes on row 1, the two
      column headers on row 2 (A at column 2, B at `colWidth + 2`, each
      showing the stack's length) and a bar per drawn element. */
  datatype Screen =
    | TooSmall(row: int, col: int)
    | Frame(title: Title, ruleWidth: int, colWidth: int, barWidth: int,
            lo: int, hi: int, countA: int, countB: int,
            barsA: seq<Bar>, barsB: seq<Bar>)

  /** draw_bar's bar length: the value's offset from `lo`, scaled to
      `maxWidth` over the range `hi - lo` (a zero range counts as one),
      with C's truncating division. The subtraction and the product are
      done in `long`; with 32-bit operands they cannot overflow it, and
      the quotient is narrowed back to `int`. A length of 0 becomes 1. */
  function BarLength(val: int, maxWidth: int, lo: int, hi: int): (len: int)
    requires IsInt(val) && IsInt(maxWidth) && IsInt(lo) && IsInt(hi)
    ensures IsInt(len) && len != 0
  {
    var range := if hi - lo == 0 then 1 else hi - lo;
    var scaled := ToInt(Quot((val - lo) * maxWidth, range));
    if scaled == 0 then 1 else scaled
  }

  lemma MulLe(d: int, x: int, y: int)
    requires d >= 0 && x <= y
    ensures d * x <= d * y && x * d <= y * d
  {
    assert d * y - d * x == d * (y - x);
  }

  /** Euclidean division is determined by the bracket d*q <= n < d*q + d. */
  lemma DivUnique(n: int, d: int, q: int)
    requires d > 0 && d * q <= n < d * q + d
    ensures n / d == q
  {
    var r := n / d;
    assert n == d * r + n % d;
    if r > q {
      MulLe(d, q + 1, r);
      assert false;
    } else if r < q {
      MulLe(d, r + 1, q);
      assert false;
    }
  }

  lemma DivMonotone(a: int, b: int, d: int)
    requires a <= b && d > 0
    ensures a / d <= b / d
  {
    var qa, qb := a / d, b / d;
    assert a == d * qa + a % d;
    assert b == d * qb + b % d;
    if qa > qb {
      MulLe(d, qb + 1, qa);
      assert false;
    }
  }

  lemma DivOfMultiple(d: int, w: int)
    requires d > 0
    ensures (d * w) / d == w
  {
    assert d * w + d == d * (w + 1);
    DivUnique(d * w, d, w);
  }

  /** The scaled length before the zero bump, for an offset inside the
      range and a positive range. */
  lemma ScaledInRange(off: int, maxWidth: int, range: int)
    requires 0 <= off <= range && 0 < range && 1 <= maxWidth
    ensures 0 <= (off * maxWidth) / range <= maxWidth
  {
    MulLe(maxWidth, 0, off);
    MulLe(maxWidth, off, range);
    assert off * maxWidth <= range * maxWidth;
    DivMonotone(0, off * maxWidth, range);
    DivMonotone(off * maxWidth, range * maxWidth, range);
    DivOfMultiple(range, maxWidth);
  }

  /** Inside a proper range, the C arithmetic of draw_bar is plain
      division: nothing is negative and nothing is narrowed. */
  lemma BarLengthPlain(val: int, maxWidth: int, lo: int, hi: int)
    requires IsInt(val) && IsInt(maxWidth) && IsInt(lo) && IsInt(hi)
    requires lo <= val <= hi && lo < hi && 1 <= maxWidth
    ensures var q := (val - lo) * maxWidth / (hi - lo);
            0 <= q <= maxWidth && BarLength(val, maxWidth, lo, hi) == if q == 0 then 1 else q
  {
    var n := (val - lo) * maxWidth;
    ScaledInRange(val - lo, maxWidth, hi - lo);
    assert Quot(n, hi - lo) == n / (hi - lo);
  }

  /** A value inside [lo, hi] gets a bar of at least one and at most
      `maxWidth` cells. */
  lemma BarLengthInRange(val: int, maxWidth: int, lo: int, hi: int)
    requires IsInt(val) && IsInt(maxWidth) && IsInt(lo) && IsInt(hi)
    requires lo <= val <= hi && 1 <= maxWidth
    ensures 1 <= BarLength(val, maxWidth, lo, hi) <= maxWidth
  {
    if hi == lo {
      assert (val - lo) * maxWidth == 0;
    } else {
      BarLengthPlain(val, maxWidth, lo, hi);
    }
  }

  /** The maximum fills the whole width. */
  lemma BarLengthAtMax(maxWidth: int, lo: int, hi: int)
    requires IsInt(maxWidth) && IsInt(lo) && IsInt(hi)
    requires lo < hi && 1 <= maxWidth
    ensures BarLength(hi, maxWidth, lo, hi) == maxWidth
  {
    DivOfMultiple(hi - lo, maxWidth);
    assert (hi - lo) * maxWidth / (hi - lo) == maxWidth;
  }

  /** Inside [lo, hi], a larger value never gets a shorter bar. */
  lemma BarLengthMonotone(v1: int, v2: int, maxWidth: int, lo: int, hi: int)
    requires IsInt(v1) && IsInt(v2) && IsInt(maxWidth) && IsInt(lo) && IsInt(hi)
    requires lo <= v1 <= v2 <= hi && 1 <= maxWidth
    ensures BarLength(v1, maxWidth, lo, hi) <= BarLength(v2, maxWidth, lo, hi)
  {
    if hi > lo {
      BarLengthPlain(v1, maxWidth, lo, hi);
      BarLengthPlain(v2, maxWidth, lo, hi);
      var n1, n2 := (v1 - lo) * maxWidth, (v2 - lo) * maxWidth;
      MulLe(maxWidth, v1 - lo, v2 - lo);
      assert n1 <= n2;
      DivMonotone(n1, n2, hi - lo);
    } else {
      assert v1 == v2;
    }
  }

  /** The bar characters draw_bar's loop emits: none for a negative length. */
  function Cells(len: int): nat {
    if len < 0 then 0 else len
  }

  /** The range render_screen scales by: the extrema of both stacks
      together, or those of A alone while B is empty. */
  function Scale(a: StackView, b: StackView): (r: (int, int))
    ensures b.values == [] ==> r == (a.minVal, a.maxVal)
    ensures b.values != [] ==> r.0 <= a.minVal && r.0 <= b.minVal && (r.0 == a.minVal || r.0 == b.minVal)
    ensures b.values != [] ==> r.1 >= a.maxVal && r.1 >= b.maxVal && (r.1 == a.maxVal || r.1 == b.maxVal)
  {
    var hi := if a.maxVal > b.maxVal then a.maxVal else b.maxVal;
    var lo := if a.minVal < b.minVal then a.minVal else b.minVal;
    if |b.values| == 0 then (a.minVal, a.maxVal) else (lo, hi)
  }

  /** B's extrema are never updated after initialisation, so while they
      hold the INT_MIN/INT_MAX sentinels the scale is A's own range,
      whether or not B holds anything. */
  lemma ScaleWithSentinelB(a: StackView, b: StackView)
    requires IsInt(a.minVal) && IsInt(a.maxVal)
    requires b.minVal == IntMax && b.maxVal == IntMin
    ensures Scale(a, b) == (a.minVal, a.maxVal)
  {
  }

  /** One column: the loop of render_screen stops before the row index
      reaches the terminal height. */
  function Column(values: seq<int>, maxH: int, col: int, barWidth: int, lo: int, hi: int): (bars: seq<Bar>)
    requires forall i :: 0 <= i < |values| ==> IsInt(values[i])
    requires IsInt(barWidth) && IsInt(lo) && IsInt(hi)
    ensures |bars| <= |values|
    ensures forall i :: 0 <= i < |bars| ==> bars[i].row < maxH
    ensures |bars| < |values| ==> 3 + |bars| >= maxH
    ensures forall i :: 0 <= i < |bars| ==>
              bars[i].row == 3 + i && bars[i].col == col && bars[i].value == values[i]
    ensures forall i :: 0 <= i < |bars| ==>
              bars[i].cells == Cells(BarLength(values[i], barWidth, lo, hi))
  {
    var n := if maxH - 3 < 0 then 0 else if |values| < maxH - 3 then |values| else maxH - 3;
    seq(n, i requires 0 <= i < n => Bar(3 + i, col, values[i], Cells(BarLength(values[i], barWidth, lo, hi))))
  }

  /** render_screen. */
  function RenderScreen(maxH: int, maxW: int, title: Title, a: StackView, b: StackView): (s: Screen)
    requires IsInt(maxH) && IsInt(maxW) && ViewInRange(a) && ViewInRange(b)
    ensures s.TooSmall? <==> maxH < MinHeight || maxW < MinWidth
    ensures s.TooSmall? ==> s.row == Quot(maxH, 2) && s.col == Quot(maxW - 20, 2)
    ensures s.Frame? ==>
              s.title == title && s.ruleWidth == maxW &&
              s.colWidth == maxW / 2 && s.barWidth == s.colWidth - 10 && s.barWidth >= 6 &&
              (s.lo, s.hi) == Scale(a, b) &&
              s.countA == |a.values| && s.countB == |b.values|
    ensures s.Frame? ==>
              s.barsA == Column(a.values, maxH, 2, s.barWidth, s.lo, s.hi) &&
              s.barsB == Column(b.values, maxH, s.colWidth + 2, s.barWidth, s.lo, s.hi)
  {
    if maxH < MinHeight || maxW < MinWidth then
      TooSmall(Quot(maxH, 2), Quot(maxW - 20, 2))
    else
      var colWidth := Quot(maxW, 2);
      var barWidth := colWidth - 10;
      var (lo, hi) := Scale(a, b);
      Frame(title, maxW, colWidth, barWidth, lo, hi, |a.values|, |b.values|,
            Column(a.values, maxH, 2, barWidth, lo, hi),
            Column(b.values, maxH, colWidth + 2, barWidth, lo, hi))
  }

  /** When every value lies in the scaling range, every drawn bar has at
      least one and at most `barWidth` cells, and every drawn row is above
      the bottom of the screen. Where the bar ends horizontally also depends
      on the width of the printed value, which is not modelled. */
  lemma FrameBarsFit(maxH: int, maxW: int, title: Title, a: StackView, b: StackView)
    requires IsInt(maxH) && IsInt(maxW) && ViewInRange(a) && ViewInRange(b)
    requires var (lo, hi) := Scale(a, b); Bounded(a.values, lo, hi) && Bounded(b.values, lo, hi)
    ensures var s := RenderScreen(maxH, maxW, title, a, b);
            s.Frame? ==>
              (forall i :: 0 <= i < |s.barsA| ==> 1 <= s.barsA[i].cells <= s.barWidth && s.barsA[i].row < maxH) &&
              (forall i :: 0 <= i < |s.barsB| ==> 1 <= s.barsB[i].cells <= s.barWidth && s.barsB[i].row < maxH)
  {
    var s := RenderScreen(maxH, maxW, title, a, b);
    if s.Frame? {
      forall i | 0 <= i < |s.barsA| ensures 1 <= s.barsA[i].cells <= s.barWidth {
        BarLengthInRange(a.values[i], s.barWidth, s.lo, s.hi);
      }
      forall i | 0 <= i < |s.barsB| ensures 1 <= s.barsB[i].cells <= s.barWidth {
        BarLengthInRange(b.values[i], s.barWidth, s.lo, s.hi);
      }
    }
  }
}
