/**
 The resize controller of js/app.js (lines 124-191): the container size in
 vmin, clamped to [20, 100]; the size message shown as a percentage of the
 60 vmin baseline; and the mapping of wheel, key and button inputs to size
 changes.
 */
module Resize {
  import opened Browser

  const InitialSize := 60
  const MinSize := 20
  const MaxSize := 100

  /** Math.min(Math.max(size + change, minSize), maxSize) (line 159). */
  function Resized(size: int, change: int): (r: int)
    ensures MinSize <= r <= MaxSize
    ensures NearestInBounds(r, size + change)
  {
    var grown := size + change;
    var atLeast := if grown > MinSize then grown else MinSize;
    if atLeast < MaxSize then atLeast else MaxSize
  }

  function Distance(a: int, b: int): nat
  {
    if a < b then b - a else a - b
  }

  /** r is the size within the bounds closest to x. */
  predicate NearestInBounds(r: int, x: int)
  {
    MinSize <= r <= MaxSize &&
    forall y :: MinSize <= y <= MaxSize ==> Distance(r, x) <= Distance(y, x)
  }

  /** A size the controller can reach from the initial one by steps of ten. */
  predicate OnGrid(size: int)
  {
    MinSize <= size <= MaxSize && size % 10 == 0
  }

  /** The size after a run of resizeGlobe calls, applied left to right. */
  function ResizedAll(size: int, changes: seq<int>): int
    decreases changes
  {
    if changes == [] then size
    else ResizedAll(Resized(size, changes[0]), changes[1..])
  }

  predicate AllSteps(changes: seq<int>)
  {
    forall i :: 0 <= i < |changes| ==> changes[i] == 10 || changes[i] == -10
  }

  /** One step of ten keeps the size a multiple of ten within the bounds. */
  lemma ResizedStepOnGrid(size: int, change: int)
    requires OnGrid(size)
    requires change == 10 || change == -10
    ensures OnGrid(Resized(size, change))
  {
  }

  /** Steps of ten keep the size a multiple of ten within the bounds. */
  lemma {:induction false} ResizedAllOnGrid(size: int, changes: seq<int>)
    requires OnGrid(size)
    requires AllSteps(changes)
    ensures OnGrid(ResizedAll(size, changes))
    decreases changes
  {
    if changes != [] {
      ResizedStepOnGrid(size, changes[0]);
      assert AllSteps(changes[1..]) by {
        forall i | 0 <= i < |changes| - 1 ensures changes[1..][i] == 10 || changes[1..][i] == -10 {
          assert changes[1..][i] == changes[i + 1];
        }
      }
      ResizedAllOnGrid(Resized(size, changes[0]), changes[1..]);
    }
  }

  /** At a bound a further step in the same direction is idempotent. */
  lemma ResizedAtBounds()
    ensures Resized(MaxSize, 10) == MaxSize
    ensures Resized(MinSize, -10) == MinSize
    ensures ResizedAll(InitialSize, [10, 10, 10, 10, 10]) == MaxSize
  {
  }

  /** Math.round((size / 60) * 100): the nearest integer to size * 100 / 60,
      halves rounded up. For an integer size the exact quotient has fraction
      0, 1/3 or 2/3, so floating-point error cannot move it across a half. */
  function Percent(size: nat): (p: nat)
    ensures 60 * p <= 100 * size + 30 < 60 * p + 60
  {
    (size * 100 + 30) / 60
  }

  lemma PercentExamples()
    ensures Percent(InitialSize) == 100
    ensures Percent(MinSize) == 33 && Percent(MaxSize) == 167
  {
  }

  /** The decimal digits of n, as a template literal prints a non-negative integer. */
  function Decimal(n: nat): (s: string)
    ensures 1 <= |s|
    ensures forall i :: 0 <= i < |s| ==> '0' <= s[i] <= '9'
    ensures 1 < |s| ==> s[0] != '0'
    decreases n
  {
    if n < 10 then [Digit(n)] else Decimal(n / 10) + [Digit(n % 10)]
  }

  function Digit(d: nat): (c: char)
    requires d < 10
    ensures '0' <= c <= '9' && c as int - '0' as int == d
  {
    ('0' as int + d) as char
  }

  /** The number a string of decimal digits denotes. */
  function DecimalValue(s: string): nat
    requires forall i :: 0 <= i < |s| ==> '0' <= s[i] <= '9'
  {
    if s == [] then 0
    else DecimalValue(s[..|s| - 1]) * 10 + (s[|s| - 1] as int - '0' as int)
  }

  /** The printed digits read back as the number printed. */
  lemma {:induction false} DecimalRoundTrip(n: nat)
    ensures DecimalValue(Decimal(n)) == n
  {
    if n >= 10 {
      var s := Decimal(n);
      assert s[..|s| - 1] == Decimal(n / 10);
      DecimalRoundTrip(n / 10);
    }
  }

  /** The resize message text (lines 165-166). */
  /** msg reads "Size: <digits>%" and the digits denote p. */
  predicate ShowsPercent(msg: string, p: nat)
  {
    8 <= |msg| && msg[..6] == "Size: " && msg[|msg| - 1] == '%' &&
    var digits := msg[6..|msg| - 1];
    (forall i :: 0 <= i < |digits| ==> '0' <= digits[i] <= '9') &&
    DecimalValue(digits) == p
  }

  function SizeMessage(size: nat): (msg: string)
    ensures ShowsPercent(msg, Percent(size))
  {
    DecimalRoundTrip(Percent(size));
    var msg := "Size: " + Decimal(Percent(size)) + "%";
    assert msg[6..|msg| - 1] == Decimal(Percent(size));
    msg
  }

  lemma SizeMessageAtBaseline()
    ensures SizeMessage(InitialSize) == "Size: 100%"
  {
  }

  /** document.activeElement as the wheel handler tests it. */
  datatype Focus = Body | DocumentElement | Elsewhere

  /** The inputs that resize the globe. */
  datatype Input =
    | Wheel(deltaY: real, focus: Focus)   // wheel over the container (lines 170-178)
    | KeyDown(key: string)                 // keydown on the document (lines 181-187)
    | GrowClick                            // growGlobeBtn (line 190)
    | ShrinkClick                          // shrinkGlobeBtn (line 191)

  /** The change an input passes to resizeGlobe; none when it is ignored. */
  function Change(e: Input): (c: Option<int>)
    ensures c.Some? ==> c.value == 10 || c.value == -10
  {
    match e
    case Wheel(deltaY, focus) =>
      if focus == Body || focus == DocumentElement then Some(if deltaY < 0.0 then 10 else -10)
      else None
    case KeyDown(key) =>
      if key == "ArrowUp" then Some(10)
      else if key == "ArrowDown" then Some(-10)
      else None
    case GrowClick => Some(10)
    case ShrinkClick => Some(-10)
  }

  /** Which inputs grow, which shrink and which are ignored; a wheel at rest
      (deltaY == 0) shrinks. */
  lemma ChangeDirections(e: Input)
    ensures Change(e) == Some(10) <==>
              (e.Wheel? && e.focus != Elsewhere && e.deltaY < 0.0) ||
              e == KeyDown("ArrowUp") || e == GrowClick
    ensures Change(e) == Some(-10) <==>
              (e.Wheel? && e.focus != Elsewhere && e.deltaY >= 0.0) ||
              e == KeyDown("ArrowDown") || e == ShrinkClick
    ensures Change(e) == None <==>
              (e.Wheel? && e.focus == Elsewhere) ||
              (e.KeyDown? && e.key != "ArrowUp" && e.key != "ArrowDown")
  {
  }
}
