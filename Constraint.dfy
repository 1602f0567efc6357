/**
 * The neighbour-constraint cascade of a multi-knob slider, as values.
 *
 * The knob values of a group are an ordered sequence; a proposal for knob
 * `index` may push its left or right neighbour away (recursively) before the
 * proposal itself is clamped against the re-read neighbours and committed.
 * Every commit is logged as an `(index, value)` event.
 */
module Constraint {
  import opened Wrappers
  import opened JsMath

  /** The slider's range and the minimal gap between neighbours (`_valueDiffMin`). */
  datatype Range = Range(min: real, max: real, diffMin: real)

  /** The knob values after a push, and the events emitted while pushing. */
  datatype Effect = Effect(values: seq<real>, emitted: seq<(int, real)>)

  /** The knob values after a proposal is resolved, the events emitted, and the value written at its index. */
  datatype Outcome = Outcome(values: seq<real>, emitted: seq<(int, real)>, result: real)


  // ---------------------------------------------------------------------------
  // Neighbour lookups and guards
  // ---------------------------------------------------------------------------

  /** The value of the knob left of `index`; `None` stands for JavaScript's `undefined`. */
  function PreviousSliderValue(vals: seq<real>, index: int): (r: Option<real>)
    ensures r.Some? <==> 1 <= index <= |vals|
    ensures r.Some? ==> r.value == vals[index - 1]
  {
    if 0 <= index - 1 < |vals| then Some(vals[index - 1]) else None
  }

  /** The value of the knob right of `index`, or `None`. */
  function NextSliderValue(vals: seq<real>, index: int): (r: Option<real>)
    ensures r.Some? <==> -1 <= index < |vals| - 1
    ensures r.Some? ==> r.value == vals[index + 1]
  {
    if 0 <= index + 1 < |vals| then Some(vals[index + 1]) else None
  }

  /** Whether knob `index` has a left neighbour. */
  function IndexHasLeftSlider(vals: seq<real>, index: int): (b: bool)
    ensures 0 <= index < |vals| ==> (b <==> PreviousSliderValue(vals, index).Some?)
  {
    index > 0
  }

  /** Whether knob `index` has a right neighbour. */
  function IndexHasRightSlider(vals: seq<real>, index: int): (b: bool)
    ensures 0 <= index < |vals| ==> (b <==> NextSliderValue(vals, index).Some?)
  {
    index < |vals| - 1
  }

  /** Whether `value` lies closer than the minimal gap above `minValue`. */
  function CheckForValueDiffMin(c: Range, value: real, minValue: real): (b: bool)
    ensures !b <==> minValue + c.diffMin <= value
  {
    (value - minValue) < c.diffMin
  }

  /** The condition under which the left neighbour of `index` is pushed down. */
  predicate LeftGuard(c: Range, vals: seq<real>, index: int, value: real)
    requires 0 <= index < |vals|
  {
    IndexHasLeftSlider(vals, index) && CheckForValueDiffMin(c, value, vals[index - 1])
    && vals[index - 1] > c.min
  }

  /** The condition under which the right neighbour of `index` is pushed up. */
  predicate RightGuard(c: Range, vals: seq<real>, index: int, value: real)
    requires 0 <= index < |vals|
  {
    IndexHasRightSlider(vals, index) && CheckForValueDiffMin(c, vals[index + 1], value)
    && vals[index + 1] < c.max
  }

  // ---------------------------------------------------------------------------
  // Clamping
  // ---------------------------------------------------------------------------

  /** The lowest value a knob with left neighbour `prev` may take. */
  function Lower(c: Range, prev: Option<real>): real
  {
    if prev.Some? then Max(c.min, prev.value + c.diffMin) else c.min
  }

  /** The highest value a knob with right neighbour `next` may take. */
  function Upper(c: Range, next: Option<real>): real
  {
    if next.Some? then Min(c.max, next.value - c.diffMin) else c.max
  }

  /**
   * Clamps `value` into the range, then raises it to the left neighbour plus
   * the gap, then lowers it to the right neighbour minus the gap (that bound
   * is applied last and so always wins).
   */
  function ValidValueToSet(c: Range, value: real, prev: Option<real>, next: Option<real>): real
  {
    var inRange := Min(c.max, Max(c.min, value));
    var aboveLeft := if prev.Some? then Max(prev.value + c.diffMin, inRange) else inRange;
    if next.Some? then Min(next.value - c.diffMin, aboveLeft) else aboveLeft
  }

  /**
   * The bounds `_getValidValueToSet` guarantees. The right neighbour's bound
   * is applied last, so it holds whenever that neighbour is given, even when
   * the window between the neighbours is empty.
   */
  lemma ValidValueToSetBounds(c: Range, value: real, prev: Option<real>, next: Option<real>)
    ensures var r := ValidValueToSet(c, value, prev, next);
            && (next.Some? ==> r <= next.value - c.diffMin)
            && (prev.Some? && next.None? ==> prev.value + c.diffMin <= r)
            && (prev.None? && next.None? ==> r == Min(c.max, Max(c.min, value)))
            && (prev.None? && next.None? && c.min <= c.max ==> c.min <= r <= c.max)
            && (prev.None? && next.None? && c.min <= value <= c.max ==> r == value)
            && (Lower(c, prev) <= Upper(c, next) ==> r == Max(Lower(c, prev), Min(Upper(c, next), value)))
  {
  }

  /** An inclusive window that is not empty clamps to a point inside it. */
  lemma ClampInWindow(c: Range, value: real, prev: Option<real>, next: Option<real>)
    requires Lower(c, prev) <= Upper(c, next)
    ensures var r := ValidValueToSet(c, value, prev, next);
      Lower(c, prev) <= r <= Upper(c, next)
      && (Lower(c, prev) <= value <= Upper(c, next) ==> r == value)
  {
  }

  // ---------------------------------------------------------------------------
  // The cascade
  // ---------------------------------------------------------------------------

  /**
   * `_setValueForIndex`: push the left neighbour, then the right neighbour,
   * then clamp the proposal against the re-read neighbours and commit it,
   * emitting one `(index, value)` event per commit. The recursion of the
   * source need not terminate, so it is run with a `fuel` bound: `None`
   * means the bound was exhausted.
   */
  function Run(c: Range, fuel: nat, vals: seq<real>, index: int, value: real): (o: Option<Outcome>)
    requires 0 <= index < |vals|
    ensures o.Some? ==> |o.value.values| == |vals| && o.value.values[index] == o.value.result
    decreases fuel, 0
  {
    if fuel == 0 then None
    else
      match PushLeft(c, fuel - 1, vals, index, value)
      case None => None
      case Some(e1) =>
        match PushRight(c, fuel - 1, e1.values, index, value)
        case None => None
        case Some(e2) =>
          var r := ValidValueToSet(c, value, PreviousSliderValue(e2.values, index),
                                   NextSliderValue(e2.values, index));
          Some(Outcome(e2.values[index := r], e1.emitted + e2.emitted + [(index, r)], r))
  }

  /** The left push: the neighbour is sent towards `value - diffMin`, clamped into the range. */
  function PushLeft(c: Range, fuel: nat, vals: seq<real>, index: int, value: real): (o: Option<Effect>)
    requires 0 <= index < |vals|
    ensures o.Some? ==> |o.value.values| == |vals|
    decreases fuel, 1
  {
    if LeftGuard(c, vals, index, value) then
      match Run(c, fuel, vals, index - 1, ValidValueToSet(c, value - c.diffMin, None, None))
      case None => None
      case Some(o) => Some(Effect(o.values, o.emitted))
    else Some(Effect(vals, []))
  }

  /** The right push: the neighbour is sent towards `value + diffMin`, clamped into the range. */
  function PushRight(c: Range, fuel: nat, vals: seq<real>, index: int, value: real): (o: Option<Effect>)
    requires 0 <= index < |vals|
    ensures o.Some? ==> |o.value.values| == |vals|
    decreases fuel, 1
  {
    if RightGuard(c, vals, index, value) then
      match Run(c, fuel, vals, index + 1, ValidValueToSet(c, value + c.diffMin, None, None))
      case None => None
      case Some(o) => Some(Effect(o.values, o.emitted))
    else Some(Effect(vals, []))
  }

  /** A resolution that finishes writes its result at its own index, and that write is its last event. */
  lemma RunCommitsLast(c: Range, fuel: nat, vals: seq<real>, index: int, value: real)
    requires 0 <= index < |vals| && Run(c, fuel, vals, index, value).Some?
    ensures var o := Run(c, fuel, vals, index, value).value;
            && o.values[index] == o.result
            && |o.emitted| > 0 && o.emitted[|o.emitted| - 1] == (index, o.result)
  {
  }

  /**
   * When a push is made, the neighbour is too close and not yet at the
   * bound, and the proposal it is sent lies strictly beyond it. The
   * neighbour's own resolution may still clamp that proposal back
   * (`PushedBackInPlace`).
   */
  lemma PushProposalBeyondNeighbour(c: Range, vals: seq<real>, index: int, value: real)
    requires 0 <= index < |vals|
    ensures LeftGuard(c, vals, index, value) ==>
              ValidValueToSet(c, value - c.diffMin, None, None) < vals[index - 1]
    ensures RightGuard(c, vals, index, value) ==>
              vals[index + 1] < ValidValueToSet(c, value + c.diffMin, None, None)
  {
  }

  /** One finished resolution, taken apart into its left push, its right push and its commit. */
  lemma RunSteps(c: Range, fuel: nat, vals: seq<real>, index: int, value: real) returns (e1: Effect, e2: Effect)
    requires 0 <= index < |vals| && Run(c, fuel, vals, index, value).Some?
    ensures fuel > 0
    ensures PushLeft(c, fuel - 1, vals, index, value) == Some(e1) && |e1.values| == |vals|
    ensures PushRight(c, fuel - 1, e1.values, index, value) == Some(e2) && |e2.values| == |vals|
    ensures var r := ValidValueToSet(c, value, PreviousSliderValue(e2.values, index), NextSliderValue(e2.values, index));
            Run(c, fuel, vals, index, value) == Some(Outcome(e2.values[index := r], e1.emitted + e2.emitted + [(index, r)], r))
  {
    e1 := PushLeft(c, fuel - 1, vals, index, value).value;
    e2 := PushRight(c, fuel - 1, e1.values, index, value).value;
  }

  /** A left push that was made is the left neighbour's finished resolution. */
  lemma PushLeftTaken(c: Range, fuel: nat, vals: seq<real>, index: int, value: real, e: Effect) returns (o: Outcome)
    requires 0 <= index < |vals| && PushLeft(c, fuel, vals, index, value) == Some(e)
    requires LeftGuard(c, vals, index, value)
    ensures Run(c, fuel, vals, index - 1, ValidValueToSet(c, value - c.diffMin, None, None)) == Some(o)
    ensures e == Effect(o.values, o.emitted)
  {
    o := Run(c, fuel, vals, index - 1, ValidValueToSet(c, value - c.diffMin, None, None)).value;
  }

  /** A right push that was made is the right neighbour's finished resolution. */
  lemma PushRightTaken(c: Range, fuel: nat, vals: seq<real>, index: int, value: real, e: Effect) returns (o: Outcome)
    requires 0 <= index < |vals| && PushRight(c, fuel, vals, index, value) == Some(e)
    requires RightGuard(c, vals, index, value)
    ensures Run(c, fuel, vals, index + 1, ValidValueToSet(c, value + c.diffMin, None, None)) == Some(o)
    ensures e == Effect(o.values, o.emitted)
  {
    o := Run(c, fuel, vals, index + 1, ValidValueToSet(c, value + c.diffMin, None, None)).value;
  }

  /** More fuel never changes a resolution that already finished. */
  lemma {:induction false} RunFuelMonotone(c: Range, fuel: nat, more: nat, vals: seq<real>, index: int, value: real)
    requires 0 <= index < |vals| && fuel <= more
    requires Run(c, fuel, vals, index, value).Some?
    ensures Run(c, more, vals, index, value) == Run(c, fuel, vals, index, value)
    decreases fuel, 0
  {
    var e1, e2 := RunSteps(c, fuel, vals, index, value);
    PushLeftFuelMonotone(c, fuel - 1, more - 1, vals, index, value);
    PushRightFuelMonotone(c, fuel - 1, more - 1, e1.values, index, value);
  }

  lemma {:induction false} PushLeftFuelMonotone(c: Range, fuel: nat, more: nat, vals: seq<real>, index: int, value: real)
    requires 0 <= index < |vals| && fuel <= more
    requires PushLeft(c, fuel, vals, index, value).Some?
    ensures PushLeft(c, more, vals, index, value) == PushLeft(c, fuel, vals, index, value)
    decreases fuel, 1
  {
    if LeftGuard(c, vals, index, value) {
      RunFuelMonotone(c, fuel, more, vals, index - 1, ValidValueToSet(c, value - c.diffMin, None, None));
    }
  }

  lemma {:induction false} PushRightFuelMonotone(c: Range, fuel: nat, more: nat, vals: seq<real>, index: int, value: real)
    requires 0 <= index < |vals| && fuel <= more
    requires PushRight(c, fuel, vals, index, value).Some?
    ensures PushRight(c, more, vals, index, value) == PushRight(c, fuel, vals, index, value)
    decreases fuel, 1
  {
    if RightGuard(c, vals, index, value) {
      RunFuelMonotone(c, fuel, more, vals, index + 1, ValidValueToSet(c, value + c.diffMin, None, None));
    }
  }

  // ---------------------------------------------------------------------------
  // The spacing invariant and how far a cascade reaches
  // ---------------------------------------------------------------------------

  /** Every knob lies in the range and neighbours are at least `diffMin` (>= 0) apart. */
  ghost predicate Spaced(c: Range, vals: seq<real>)
  {
    && 0.0 <= c.diffMin
    && (forall k :: 0 <= k < |vals| ==> c.min <= vals[k] <= c.max)
    && (forall k :: 0 <= k < |vals| - 1 ==> !CheckForValueDiffMin(c, vals[k + 1], vals[k]))
  }

  /** Spacing implies order: knobs never cross. */
  lemma {:induction false} SpacedOrdered(c: Range, vals: seq<real>, i: int, j: int)
    requires Spaced(c, vals) && 0 <= i <= j < |vals|
    ensures vals[i] <= vals[j]
    decreases j - i
  {
    if i < j {
      assert !CheckForValueDiffMin(c, vals[i + 1], vals[i]);
      SpacedOrdered(c, vals, i + 1, j);
    }
  }

  /** Writing a value that respects the range and both neighbours keeps a group spaced. */
  lemma CommitKeepsSpaced(c: Range, vals: seq<real>, j: int, r: real)
    requires Spaced(c, vals) && 0 <= j < |vals|
    requires c.min <= r <= c.max
    requires j > 0 ==> !CheckForValueDiffMin(c, r, vals[j - 1])
    requires j + 1 < |vals| ==> !CheckForValueDiffMin(c, vals[j + 1], r)
    ensures Spaced(c, vals[j := r])
  {
    var t := vals[j := r];
    forall k | 0 <= k < |t| - 1
      ensures !CheckForValueDiffMin(c, t[k + 1], t[k])
    {
      if k != j && k + 1 != j {
        assert !CheckForValueDiffMin(c, vals[k + 1], vals[k]);
      }
    }
  }

  /** The lowest index a leftward cascade entering at `j` with proposal `p` writes. */
  function LeftReach(c: Range, vals: seq<real>, j: int, p: real): (lo: int)
    requires 0 <= j < |vals|
    ensures 0 <= lo <= j
    decreases j
  {
    if LeftGuard(c, vals, j, p)
    then LeftReach(c, vals, j - 1, ValidValueToSet(c, p - c.diffMin, None, None))
    else j
  }

  /** The highest index a rightward cascade entering at `j` with proposal `p` writes. */
  function RightReach(c: Range, vals: seq<real>, j: int, p: real): (hi: int)
    requires 0 <= j < |vals|
    ensures j <= hi < |vals|
    decreases |vals| - j
  {
    if RightGuard(c, vals, j, p)
    then RightReach(c, vals, j + 1, ValidValueToSet(c, p + c.diffMin, None, None))
    else j
  }

  /** The events of indices `lo..hi`, lowest index first. */
  function Ascending(vals: seq<real>, lo: int, hi: int): (es: seq<(int, real)>)
    requires 0 <= lo && hi < |vals|
    ensures |es| == if hi < lo then 0 else hi - lo + 1
    decreases hi - lo
  {
    if hi < lo then [] else Ascending(vals, lo, hi - 1) + [(hi, vals[hi])]
  }

  /** The events of indices `lo..hi`, highest index first. */
  function Descending(vals: seq<real>, lo: int, hi: int): (es: seq<(int, real)>)
    requires 0 <= lo && hi < |vals|
    ensures |es| == if hi < lo then 0 else hi - lo + 1
    decreases hi - lo
  {
    if hi < lo then [] else Descending(vals, lo + 1, hi) + [(lo, vals[lo])]
  }

  lemma {:induction false} AscendingFrame(a: seq<real>, b: seq<real>, lo: int, hi: int)
    requires 0 <= lo && hi < |a| && hi < |b|
    requires forall k :: lo <= k <= hi ==> a[k] == b[k]
    ensures Ascending(a, lo, hi) == Ascending(b, lo, hi)
    decreases hi - lo
  {
    if lo <= hi {
      AscendingFrame(a, b, lo, hi - 1);
    }
  }

  lemma {:induction false} DescendingFrame(a: seq<real>, b: seq<real>, lo: int, hi: int)
    requires 0 <= lo && hi < |a| && hi < |b|
    requires forall k :: lo <= k <= hi ==> a[k] == b[k]
    ensures Descending(a, lo, hi) == Descending(b, lo, hi)
    decreases hi - lo
  {
    if lo <= hi {
      DescendingFrame(a, b, lo + 1, hi);
    }
  }

  /**
   * What a leftward cascade over `lo..j` leaves behind: the group is still
   * spaced, only knobs `lo..j` may have changed, none of them raised, and
   * their events were emitted lowest index first.
   */
  ghost predicate LeftShape(c: Range, vals: seq<real>, lo: int, j: int, out: seq<real>, emitted: seq<(int, real)>)
    requires 0 <= lo && j < |vals|
  {
    && |out| == |vals|
    && Spaced(c, out)
    && (forall k :: 0 <= k < |vals| && (k < lo || j < k) ==> out[k] == vals[k])
    && (forall k :: lo <= k <= j ==> out[k] <= vals[k])
    && emitted == Ascending(out, lo, j)
  }

  /**
   * A proposal at `j` that does not exceed the knob's current value only
   * ever pushes knobs to the left, and stops at `LeftReach`.
   */
  lemma {:induction false} LeftwardCascade(c: Range, fuel: nat, vals: seq<real>, j: int, p: real) returns (o: Outcome)
    requires Spaced(c, vals) && 0 <= j < |vals|
    requires fuel > j
    requires p <= vals[j]
    ensures Run(c, fuel, vals, j, p) == Some(o)
    ensures LeftShape(c, vals, LeftReach(c, vals, j, p), j, o.values, o.emitted)
    decreases j
  {
    var e1: Effect;
    if LeftGuard(c, vals, j, p) {
      var p' := ValidValueToSet(c, p - c.diffMin, None, None);
      LeftProposalBelow(c, vals, j, p);
      var o1 := LeftwardCascade(c, fuel - 1, vals, j - 1, p');
      assert LeftReach(c, vals, j, p) == LeftReach(c, vals, j - 1, p');
      e1 := Effect(o1.values, o1.emitted);
    } else {
      e1 := Effect(vals, []);
    }
    o := LeftwardStep(c, fuel, vals, j, p, e1);
  }

  /** A left push sends its neighbour a proposal no higher than that neighbour's value. */
  lemma LeftProposalBelow(c: Range, vals: seq<real>, j: int, p: real)
    requires Spaced(c, vals) && 0 <= j < |vals|
    requires LeftGuard(c, vals, j, p)
    ensures ValidValueToSet(c, p - c.diffMin, None, None) <= vals[j - 1]
  {
  }

  /** One frame of a leftward cascade, given what the left push it made did. */
  lemma LeftwardStep(c: Range, fuel: nat, vals: seq<real>, j: int, p: real, e1: Effect) returns (o: Outcome)
    requires Spaced(c, vals) && 0 <= j < |vals| && fuel > 0
    requires p <= vals[j]
    requires PushLeft(c, fuel - 1, vals, j, p) == Some(e1)
    requires LeftShape(c, vals, LeftReach(c, vals, j, p), j - 1, e1.values, e1.emitted)
    ensures Run(c, fuel, vals, j, p) == Some(o)
    ensures LeftShape(c, vals, LeftReach(c, vals, j, p), j, o.values, o.emitted)
  {
    var lo := LeftReach(c, vals, j, p);
    LeftFrameCommit(c, fuel, vals, e1, j, p);
    var r := ValidValueToSet(c, p, PreviousSliderValue(e1.values, j), NextSliderValue(e1.values, j));
    o := Outcome(e1.values[j := r], e1.emitted + [(j, r)], r);
    AscendingFrame(e1.values, o.values, lo, j - 1);
  }

  /** The last step of a leftward frame: no right push, and the clamped commit stays spaced. */
  lemma LeftFrameCommit(c: Range, fuel: nat, vals: seq<real>, e1: Effect, j: int, p: real)
    requires Spaced(c, vals) && 0 <= j < |vals| && fuel > 0
    requires p <= vals[j]
    requires PushLeft(c, fuel - 1, vals, j, p) == Some(e1)
    requires Spaced(c, e1.values) && |e1.values| == |vals|
    requires forall k :: j <= k < |vals| ==> e1.values[k] == vals[k]
    requires j > 0 ==> e1.values[j - 1] <= vals[j - 1]
    ensures var r := ValidValueToSet(c, p, PreviousSliderValue(e1.values, j), NextSliderValue(e1.values, j));
            && Run(c, fuel, vals, j, p) == Some(Outcome(e1.values[j := r], e1.emitted + [(j, r)], r))
            && r <= vals[j]
            && Spaced(c, e1.values[j := r])
  {
    var d := c.diffMin;
    assert j + 1 < |vals| ==> !CheckForValueDiffMin(c, vals[j + 1], vals[j]);
    assert !RightGuard(c, e1.values, j, p);
    assert PushRight(c, fuel - 1, e1.values, j, p) == Some(Effect(e1.values, []));
    var prev := PreviousSliderValue(e1.values, j);
    var next := NextSliderValue(e1.values, j);
    if j > 0 {
      assert !CheckForValueDiffMin(c, vals[j], vals[j - 1]);
    }
    ClampInWindow(c, p, prev, next);
    var r := ValidValueToSet(c, p, prev, next);
    assert e1.emitted + [] + [(j, r)] == e1.emitted + [(j, r)];
    CommitKeepsSpaced(c, e1.values, j, r);
  }

  /**
   * What a rightward cascade over `j..hi` leaves behind: the group is still
   * spaced, only knobs `j..hi` may have changed, none of them lowered, and
   * their events were emitted farthest knob first, the knob that started it
   * last.
   */
  ghost predicate RightShape(c: Range, vals: seq<real>, j: int, hi: int, out: seq<real>, emitted: seq<(int, real)>)
    requires 0 <= j && hi < |vals|
  {
    && |out| == |vals|
    && Spaced(c, out)
    && (forall k :: 0 <= k < |vals| && (k < j || hi < k) ==> out[k] == vals[k])
    && (forall k :: j <= k <= hi ==> vals[k] <= out[k])
    && emitted == Descending(out, j, hi)
  }

  /**
   * A proposal at `j` that is not below the knob's current value only ever
   * pushes knobs to the right, and stops at `RightReach`.
   */
  lemma {:induction false} RightwardCascade(c: Range, fuel: nat, vals: seq<real>, j: int, p: real) returns (o: Outcome)
    requires Spaced(c, vals) && 0 <= j < |vals|
    requires fuel >= |vals| - j
    requires vals[j] <= p
    ensures Run(c, fuel, vals, j, p) == Some(o)
    ensures RightShape(c, vals, j, RightReach(c, vals, j, p), o.values, o.emitted)
    decreases |vals| - j
  {
    var e2: Effect;
    if RightGuard(c, vals, j, p) {
      var p' := ValidValueToSet(c, p + c.diffMin, None, None);
      RightProposalAbove(c, vals, j, p);
      var o1 := RightwardCascade(c, fuel - 1, vals, j + 1, p');
      assert RightReach(c, vals, j, p) == RightReach(c, vals, j + 1, p');
      e2 := Effect(o1.values, o1.emitted);
    } else {
      e2 := Effect(vals, []);
    }
    o := RightwardStep(c, fuel, vals, j, p, e2);
  }

  /** A right push sends its neighbour a proposal no lower than that neighbour's value. */
  lemma RightProposalAbove(c: Range, vals: seq<real>, j: int, p: real)
    requires Spaced(c, vals) && 0 <= j < |vals|
    requires RightGuard(c, vals, j, p)
    ensures vals[j + 1] <= ValidValueToSet(c, p + c.diffMin, None, None)
  {
  }

  /** One frame of a rightward cascade, given what the right push it made did. */
  lemma RightwardStep(c: Range, fuel: nat, vals: seq<real>, j: int, p: real, e2: Effect) returns (o: Outcome)
    requires Spaced(c, vals) && 0 <= j < |vals| && fuel > 0
    requires vals[j] <= p
    requires PushRight(c, fuel - 1, vals, j, p) == Some(e2)
    requires RightShape(c, vals, j + 1, RightReach(c, vals, j, p), e2.values, e2.emitted)
    ensures Run(c, fuel, vals, j, p) == Some(o)
    ensures RightShape(c, vals, j, RightReach(c, vals, j, p), o.values, o.emitted)
  {
    var hi := RightReach(c, vals, j, p);
    RightFrameCommit(c, fuel, vals, e2, j, p);
    var r := ValidValueToSet(c, p, PreviousSliderValue(e2.values, j), NextSliderValue(e2.values, j));
    o := Outcome(e2.values[j := r], e2.emitted + [(j, r)], r);
    DescendingFrame(e2.values, o.values, j + 1, hi);
  }

  /** The last step of a rightward frame: no left push, and the clamped commit stays spaced. */
  lemma RightFrameCommit(c: Range, fuel: nat, vals: seq<real>, e2: Effect, j: int, p: real)
    requires Spaced(c, vals) && 0 <= j < |vals| && fuel > 0
    requires vals[j] <= p
    requires PushRight(c, fuel - 1, vals, j, p) == Some(e2)
    requires Spaced(c, e2.values) && |e2.values| == |vals|
    requires forall k :: 0 <= k <= j ==> e2.values[k] == vals[k]
    requires j + 1 < |vals| ==> vals[j + 1] <= e2.values[j + 1]
    ensures var r := ValidValueToSet(c, p, PreviousSliderValue(e2.values, j), NextSliderValue(e2.values, j));
            && Run(c, fuel, vals, j, p) == Some(Outcome(e2.values[j := r], e2.emitted + [(j, r)], r))
            && vals[j] <= r
            && Spaced(c, e2.values[j := r])
  {
    assert j > 0 ==> !CheckForValueDiffMin(c, vals[j], vals[j - 1]);
    assert !LeftGuard(c, vals, j, p);
    assert PushLeft(c, fuel - 1, vals, j, p) == Some(Effect(vals, []));
    var prev := PreviousSliderValue(e2.values, j);
    var next := NextSliderValue(e2.values, j);
    if j + 1 < |vals| {
      assert !CheckForValueDiffMin(c, vals[j + 1], vals[j]);
    }
    ClampInWindow(c, p, prev, next);
    var r := ValidValueToSet(c, p, prev, next);
    assert [] + e2.emitted + [(j, r)] == e2.emitted + [(j, r)];
    CommitKeepsSpaced(c, e2.values, j, r);
  }

  // ---------------------------------------------------------------------------
  // Whole cascades
  // ---------------------------------------------------------------------------

  /**
   * From a spaced group, every proposal resolves within `|vals|` levels of
   * recursion. It pushes in at most one direction: a proposal not above the
   * knob's value pushes only leftward, one above it only rightward (and a
   * push happens exactly when the guard on that side holds). The group stays
   * spaced, knobs outside the pushed run are untouched, and the run's events
   * end with the write to the knob the proposal was made for.
   */
  lemma CascadeSettles(c: Range, fuel: nat, vals: seq<real>, i: int, v: real) returns (o: Outcome)
    requires Spaced(c, vals) && 0 <= i < |vals|
    requires fuel >= |vals|
    ensures Run(c, fuel, vals, i, v) == Some(o)
    ensures Spaced(c, o.values)
    ensures LeftReach(c, vals, i, v) < i <==> LeftGuard(c, vals, i, v)
    ensures i < RightReach(c, vals, i, v) <==> RightGuard(c, vals, i, v)
    ensures v <= vals[i] ==>
              && RightReach(c, vals, i, v) == i
              && LeftShape(c, vals, LeftReach(c, vals, i, v), i, o.values, o.emitted)
    ensures vals[i] < v ==>
              && LeftReach(c, vals, i, v) == i
              && RightShape(c, vals, i, RightReach(c, vals, i, v), o.values, o.emitted)
  {
    if v <= vals[i] {
      if i + 1 < |vals| {
        assert !CheckForValueDiffMin(c, vals[i + 1], vals[i]);
      }
      o := LeftwardCascade(c, fuel, vals, i, v);
    } else {
      if i > 0 {
        assert !CheckForValueDiffMin(c, vals[i], vals[i - 1]);
      }
      o := RightwardCascade(c, fuel, vals, i, v);
    }
  }

  /** Whatever fuel it was given, a resolution that finishes from a spaced group leaves the group spaced. */
  lemma ResolutionKeepsSpaced(c: Range, fuel: nat, vals: seq<real>, i: int, v: real)
    requires 0 <= i < |vals| && Run(c, fuel, vals, i, v).Some?
    ensures Spaced(c, vals) ==> Spaced(c, Run(c, fuel, vals, i, v).value.values)
  {
    if Spaced(c, vals) {
      var o := CascadeSettles(c, |vals|, vals, i, v);
      var more := if fuel < |vals| then |vals| else fuel;
      RunFuelMonotone(c, fuel, more, vals, i, v);
      RunFuelMonotone(c, |vals|, more, vals, i, v);
    }
  }

  /**
   * A proposal that already respects the range and both neighbours changes
   * only its own knob, to exactly the proposed value, with a single event,
   * however the rest of the group is spaced.
   */
  lemma FeasibleProposal(c: Range, fuel: nat, vals: seq<real>, i: int, v: real)
    requires 0 <= i < |vals| && fuel >= 1
    requires c.min <= v <= c.max
    requires i > 0 ==> !CheckForValueDiffMin(c, v, vals[i - 1])
    requires i + 1 < |vals| ==> !CheckForValueDiffMin(c, vals[i + 1], v)
    ensures Run(c, fuel, vals, i, v) == Some(Outcome(vals[i := v], [(i, v)], v))
  {
    assert PushLeft(c, fuel - 1, vals, i, v) == Some(Effect(vals, []));
    assert PushRight(c, fuel - 1, vals, i, v) == Some(Effect(vals, []));
    ClampInWindow(c, v, PreviousSliderValue(vals, i), NextSliderValue(vals, i));
    assert [] + [] + [(i, v)] == [(i, v)];
  }

  /** Re-proposing the value a cascade settled on changes nothing more. */
  lemma CascadeIdempotent(c: Range, fuel: nat, vals: seq<real>, i: int, v: real)
    requires Spaced(c, vals) && 0 <= i < |vals|
    requires fuel >= |vals|
    ensures Run(c, fuel, vals, i, v).Some?
    ensures var o := Run(c, fuel, vals, i, v).value;
            Run(c, fuel, o.values, i, o.result) == Some(Outcome(o.values, [(i, o.result)], o.result))
  {
    var o := CascadeSettles(c, fuel, vals, i, v);
    assert o.values[i := o.result] == o.values;
    if i > 0 {
      assert !CheckForValueDiffMin(c, o.values[i], o.values[i - 1]);
    }
    if i + 1 < |o.values| {
      assert !CheckForValueDiffMin(c, o.values[i + 1], o.values[i]);
    }
    FeasibleProposal(c, fuel, o.values, i, o.result);
  }

  // ---------------------------------------------------------------------------
  // Concrete cascades
  // ---------------------------------------------------------------------------

  /** Range 0..100 with knobs kept 20 apart. */
  const Apart20 := Range(0.0, 100.0, 20.0)

  /**
   * Two knobs only 10 apart while 20 are demanded: moving the upper one to
   * 55 pushes the lower one towards 35, which pushes the upper one towards 55
   * again, and so on. No amount of fuel resolves it.
   */
  lemma {:induction false} NeverSettlesUpper(fuel: nat)
    ensures Run(Apart20, fuel, [40.0, 50.0], 1, 55.0).None?
    decreases fuel
  {
    if fuel > 0 {
      NeverSettlesLower(fuel - 1);
    }
  }

  /** The lower knob's half of the loop in `NeverSettlesUpper`. */
  lemma {:induction false} NeverSettlesLower(fuel: nat)
    ensures Run(Apart20, fuel, [40.0, 50.0], 0, 35.0).None?
    decreases fuel
  {
    if fuel > 0 {
      assert ValidValueToSet(Apart20, 35.0 + 20.0, None, None) == 55.0;
      NeverSettlesUpper(fuel - 1);
    }
  }

  /** Moving the middle knob of 10, 50, 90 down to 25 pushes the first knob to 5; it is committed first. */
  lemma MiddleKnobPushesLeft()
    ensures Run(Apart20, 3, [10.0, 50.0, 90.0], 1, 25.0)
            == Some(Outcome([5.0, 25.0, 90.0], [(0, 5.0), (1, 25.0)], 25.0))
  {
    var v := [10.0, 50.0, 90.0];
    var w := [5.0, 50.0, 90.0];
    assert ValidValueToSet(Apart20, 25.0 - 20.0, None, None) == 5.0;
    assert PushLeft(Apart20, 1, v, 0, 5.0) == Some(Effect(v, []));
    assert PushRight(Apart20, 1, v, 0, 5.0) == Some(Effect(v, []));
    assert ValidValueToSet(Apart20, 5.0, None, Some(50.0)) == 5.0;
    assert v[0 := 5.0] == w;
    assert [] + [] + [(0, 5.0)] == [(0, 5.0)];
    assert Run(Apart20, 2, v, 0, 5.0) == Some(Outcome(w, [(0, 5.0)], 5.0));
    assert PushLeft(Apart20, 2, v, 1, 25.0) == Some(Effect(w, [(0, 5.0)]));
    assert PushRight(Apart20, 2, w, 1, 25.0) == Some(Effect(w, []));
    assert ValidValueToSet(Apart20, 25.0, Some(5.0), Some(90.0)) == 25.0;
    assert w[1 := 25.0] == [5.0, 25.0, 90.0];
    assert [(0, 5.0)] + [] + [(1, 25.0)] == [(0, 5.0), (1, 25.0)];
  }

  /** With knobs 0 and 100 kept 50 apart, asking the first for 80 stops it at 50. */
  lemma StopsAtNeighbour()
    ensures Run(Range(0.0, 100.0, 50.0), 2, [0.0, 100.0], 0, 80.0)
            == Some(Outcome([50.0, 100.0], [(0, 50.0)], 50.0))
  {
    var c := Range(0.0, 100.0, 50.0);
    var v := [0.0, 100.0];
    assert PushLeft(c, 1, v, 0, 80.0) == Some(Effect(v, []));
    assert !RightGuard(c, v, 0, 80.0);
    assert PushRight(c, 1, v, 0, 80.0) == Some(Effect(v, []));
    assert ValidValueToSet(c, 80.0, None, Some(100.0)) == 50.0;
    assert v[0 := 50.0] == [50.0, 100.0];
    assert [] + [] + [(0, 50.0)] == [(0, 50.0)];
  }

  /**
   * Knobs 0 and 5 in a range 0..10 that demands a gap of 10: asking the first
   * for 10 pushes the second to the maximum, which is committed first, and the
   * first is then held at 0.
   */
  lemma PushToMaximum()
    ensures Run(Range(0.0, 10.0, 10.0), 2, [0.0, 5.0], 0, 10.0)
            == Some(Outcome([0.0, 10.0], [(1, 10.0), (0, 0.0)], 0.0))
  {
    var c := Range(0.0, 10.0, 10.0);
    var v := [0.0, 5.0];
    var w := [0.0, 10.0];
    assert PushLeft(c, 1, v, 0, 10.0) == Some(Effect(v, []));
    assert RightGuard(c, v, 0, 10.0);
    assert ValidValueToSet(c, 10.0 + 10.0, None, None) == 10.0;
    assert LeftGuard(c, v, 1, 10.0) == false;
    assert PushLeft(c, 0, v, 1, 10.0) == Some(Effect(v, []));
    assert PushRight(c, 0, v, 1, 10.0) == Some(Effect(v, []));
    assert ValidValueToSet(c, 10.0, Some(0.0), None) == 10.0;
    assert v[1 := 10.0] == w;
    assert [] + [] + [(1, 10.0)] == [(1, 10.0)];
    assert Run(c, 1, v, 1, 10.0) == Some(Outcome(w, [(1, 10.0)], 10.0));
    assert PushRight(c, 1, v, 0, 10.0) == Some(Effect(w, [(1, 10.0)]));
    assert ValidValueToSet(c, 10.0, None, Some(10.0)) == 0.0;
    assert w[0 := 0.0] == w;
    assert [] + [(1, 10.0)] + [(0, 0.0)] == [(1, 10.0), (0, 0.0)];
  }

  /**
   * A push is not a move: in 0, 20, 40 with gap 20, asking the last knob for
   * 30 pushes the middle knob towards 10, but its own clamp against its
   * neighbours returns it to 20. It is rewritten in place, and the last knob
   * is clamped back up to 40.
   */
  lemma PushedBackInPlace()
    ensures Run(Apart20, 3, [0.0, 20.0, 40.0], 2, 30.0)
            == Some(Outcome([0.0, 20.0, 40.0], [(1, 20.0), (2, 40.0)], 40.0))
  {
    var v := [0.0, 20.0, 40.0];
    assert LeftGuard(Apart20, v, 2, 30.0);
    assert ValidValueToSet(Apart20, 30.0 - 20.0, None, None) == 10.0;
    assert PushLeft(Apart20, 1, v, 1, 10.0) == Some(Effect(v, []));
    assert PushRight(Apart20, 1, v, 1, 10.0) == Some(Effect(v, []));
    assert ValidValueToSet(Apart20, 10.0, Some(0.0), Some(40.0)) == 20.0;
    assert v[1 := 20.0] == v;
    assert [] + [] + [(1, 20.0)] == [(1, 20.0)];
    assert Run(Apart20, 2, v, 1, 10.0) == Some(Outcome(v, [(1, 20.0)], 20.0));
    assert PushLeft(Apart20, 2, v, 2, 30.0) == Some(Effect(v, [(1, 20.0)]));
    assert PushRight(Apart20, 2, v, 2, 30.0) == Some(Effect(v, []));
    assert ValidValueToSet(Apart20, 30.0, Some(20.0), None) == 40.0;
    assert v[2 := 40.0] == v;
    assert [(1, 20.0)] + [] + [(2, 40.0)] == [(1, 20.0), (2, 40.0)];
  }

  /**
   * Idempotence needs the spacing invariant: in `[40, 50]`, with 20 demanded,
   * the upper knob proposing its own value still pushes the lower one to 30.
   */
  lemma UnspacedNotIdempotent()
    ensures Run(Apart20, 3, [40.0, 50.0], 1, 50.0)
            == Some(Outcome([30.0, 50.0], [(0, 30.0), (1, 50.0)], 50.0))
  {
    var v := [40.0, 50.0];
    var w := [30.0, 50.0];
    assert LeftGuard(Apart20, v, 1, 50.0);
    assert ValidValueToSet(Apart20, 50.0 - 20.0, None, None) == 30.0;
    assert PushLeft(Apart20, 1, v, 0, 30.0) == Some(Effect(v, []));
    assert PushRight(Apart20, 1, v, 0, 30.0) == Some(Effect(v, []));
    assert ValidValueToSet(Apart20, 30.0, None, Some(50.0)) == 30.0;
    assert v[0 := 30.0] == w;
    assert [] + [] + [(0, 30.0)] == [(0, 30.0)];
    assert Run(Apart20, 2, v, 0, 30.0) == Some(Outcome(w, [(0, 30.0)], 30.0));
    assert PushLeft(Apart20, 2, v, 1, 50.0) == Some(Effect(w, [(0, 30.0)]));
    assert PushRight(Apart20, 2, w, 1, 50.0) == Some(Effect(w, []));
    assert ValidValueToSet(Apart20, 50.0, Some(30.0), None) == 50.0;
    assert w[1 := 50.0] == w;
    assert [(0, 30.0)] + [] + [(1, 50.0)] == [(0, 30.0), (1, 50.0)];
  }
}
