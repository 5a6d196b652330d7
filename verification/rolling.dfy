/**
 * Trailing windows over pandas columns (`Series.rolling(window=w)`): the
 * window ending at row i holds rows i-w+1..i, and an aggregate is NaN until
 * the window is full or while any cell in it is NaN (the default
 * `min_periods` equals the window).
 */
module Rolling {
  import opened Base
  import opened Stats

  /** The values of a column that has no NaN, or `None`. */
  function AllDefined(c: Column): (r: Option<seq<real>>)
    ensures r.Some? <==> forall k :: 0 <= k < |c| ==> c[k].Some?
    ensures r.Some? ==> |r.value| == |c| && forall k :: 0 <= k < |c| ==> c[k] == Some(r.value[k])
  {
    if c == [] then Some([])
    else
      match AllDefined(c[..|c| - 1])
      case None => None
      case Some(front) =>
        match c[|c| - 1]
        case None => None
        case Some(x) => Some(front + [x])
  }

  /** The full, gap-free trailing window of `w` rows ending at row `i`, if any. */
  function WindowAt(c: Column, w: Pos, i: nat): Option<seq<real>>
    requires i < |c|
  {
    if i + 1 < w then None else AllDefined(c[i + 1 - w .. i + 1])
  }

  /** The trailing mean at row `i` (`rolling(w).mean()`). */
  function MeanAt(c: Column, w: Pos, i: nat): Cell
    requires i < |c|
  {
    match WindowAt(c, w, i)
    case None => None
    case Some(xs) => MeanCell(xs)
  }

  function RollingMean(c: Column, w: Pos): (r: Column)
    ensures |r| == |c|
  {
    seq(|c|, i requires 0 <= i < |c| => MeanAt(c, w, i))
  }

  /** The trailing sum at row `i` (`rolling(w).sum()`). */
  function SumAt(c: Column, w: Pos, i: nat): Cell
    requires i < |c|
  {
    match WindowAt(c, w, i)
    case None => None
    case Some(xs) => SumCell(xs)
  }

  function RollingSum(c: Column, w: Pos): (r: Column)
    ensures |r| == |c|
  {
    seq(|c|, i requires 0 <= i < |c| => SumAt(c, w, i))
  }

  /** The trailing minimum at row `i` (`rolling(w).min()`). */
  function MinAt(c: Column, w: Pos, i: nat): Cell
    requires i < |c|
  {
    match WindowAt(c, w, i)
    case None => None
    case Some(xs) => MinCell(xs)
  }

  function RollingMin(c: Column, w: Pos): (r: Column)
    ensures |r| == |c|
  {
    seq(|c|, i requires 0 <= i < |c| => MinAt(c, w, i))
  }

  /** The trailing maximum at row `i` (`rolling(w).max()`). */
  function MaxAt(c: Column, w: Pos, i: nat): Cell
    requires i < |c|
  {
    match WindowAt(c, w, i)
    case None => None
    case Some(xs) => MaxCell(xs)
  }

  function RollingMax(c: Column, w: Pos): (r: Column)
    ensures |r| == |c|
  {
    seq(|c|, i requires 0 <= i < |c| => MaxAt(c, w, i))
  }

  /** The trailing sample standard deviation at row `i` (`rolling(w).std()`). */
  function StdAt(sqrt: real -> real, c: Column, w: Pos, i: nat): Cell
    requires i < |c|
  {
    match WindowAt(c, w, i)
    case None => None
    case Some(xs) => Std(sqrt, xs)
  }

  function RollingStd(sqrt: real -> real, c: Column, w: Pos): (r: Column)
    ensures |r| == |c|
  {
    seq(|c|, i requires 0 <= i < |c| => StdAt(sqrt, c, w, i))
  }

  /** Over a column without gaps the window is the plain slice once it is full. */
  lemma WindowOfLift(p: seq<real>, w: Pos, i: nat)
    requires i < |p|
    ensures WindowAt(Lift(p), w, i) == if i + 1 < w then None else Some(p[i + 1 - w .. i + 1])
  {
    if i + 1 >= w {
      var c := Lift(p)[i + 1 - w .. i + 1];
      var xs := AllDefined(c).value;
      assert xs == p[i + 1 - w .. i + 1];
    }
  }

  /** A window, once full and gap-free, has exactly `w` values. */
  lemma WindowLength(c: Column, w: Pos, i: nat)
    requires i < |c|
    ensures WindowAt(c, w, i).Some? ==> |WindowAt(c, w, i).value| == w
    ensures WindowAt(c, w, i).Some? ==> forall k :: 0 <= k < w ==> c[i + 1 - w + k] == Some(WindowAt(c, w, i).value[k])
  {
  }

  /** A window is only ever available when it is full and has no gaps. */
  lemma WindowDefined(c: Column, w: Pos, i: nat)
    requires i < |c|
    ensures WindowAt(c, w, i).Some? ==> i + 1 >= w && forall k :: i + 1 - w <= k <= i ==> c[k].Some?
  {
    if WindowAt(c, w, i).Some? {
      forall k | i + 1 - w <= k <= i
        ensures c[k].Some?
      {
        assert c[i + 1 - w .. i + 1][k - (i + 1 - w)] == c[k];
      }
    }
  }
}
