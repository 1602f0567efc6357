/**
 * One knob of the multi-slider: its value, the immediate value it shows
 * while being dragged, the drag geometry along the track, the keyboard
 * bindings and the CSS class list it renders with.
 *
 * The range arithmetic of the range mixin the knob is built on is taken as
 * given: clamping is a clamp into `[min, max]` and snapping to `step` is an
 * arbitrary function `calcStep` fixed per knob.
 */
module Knob {
  import opened JsMath


  /** The keys the knob binds. */
  datatype Key = Left | Right | Down | PageDown | Home | Up | PageUp | End

  /** Events the knob fires: `slider-knob-down`, `immediate-value-change` and `change`. */
  datatype KnobEvent = KnobDown | ImmediateValueChange | Change

  /** The range mixin's clamp: never above `max`, never below `min` when the range is not empty. */
  function ClampValue(min: real, max: real, v: real): (r: real)
    ensures r <= max
    ensures min <= max ==> min <= r
    ensures min <= v <= max ==> r == v
    ensures v <= r || r == max
    ensures min <= max ==> r <= v || r == min
  {
    Min(max, Max(min, v))
  }

  /** `_calcKnobPosition`: the value at `ratio` percent of the range. */
  function CalcKnobPosition(min: real, max: real, ratio: real): (r: real)
    ensures ratio == 0.0 ==> r == min
    ensures ratio == 100.0 ==> r == max
  {
    (max - min) * ratio / 100.0 + min
  }

  /** The position grows with the ratio as long as the range is not inverted. */
  lemma KnobPositionMonotone(min: real, max: real, r1: real, r2: real)
    requires min <= max && r1 <= r2
    ensures CalcKnobPosition(min, max, r1) <= CalcKnobPosition(min, max, r2)
  {
    NonNegativeProduct(max - min, r2 - r1);
    assert (max - min) * r2 - (max - min) * r1 == (max - min) * (r2 - r1);
  }

  /** A ratio from 0 to 100 lands inside the range. */
  lemma KnobPositionWithin(min: real, max: real, ratio: real)
    requires min <= max && 0.0 <= ratio <= 100.0
    ensures min <= CalcKnobPosition(min, max, ratio) <= max
  {
    KnobPositionMonotone(min, max, 0.0, ratio);
    KnobPositionMonotone(min, max, ratio, 100.0);
  }

  /** The position is an affine function of the ratio: equal steps of ratio give equal steps of value. */
  lemma KnobPositionAffine(min: real, max: real, r1: real, r2: real)
    ensures CalcKnobPosition(min, max, r1 + r2) - CalcKnobPosition(min, max, r2)
            == CalcKnobPosition(min, max, r1) - min
  {
    assert (max - min) * (r1 + r2) == (max - min) * r1 + (max - min) * r2;
  }

  lemma NonNegativeProduct(a: real, b: real)
    requires 0.0 <= a && 0.0 <= b
    ensures 0.0 <= a * b
  {
  }

  /** A drag position inside the track is a ratio from 0 to 100 of it. */
  lemma TrackRatioWithin(x: real, w: real)
    requires 0.0 < w && 0.0 <= x <= w
    ensures 0.0 <= x / w * 100.0 <= 100.0
  {
    assert (1.0 - x / w) * w == w - x;
  }

  /** The pixel offset of `ratio` percent along a track `w` pixels wide. */
  function TrackPosition(ratio: real, w: real): real
  {
    ratio * w / 100.0
  }

  /** Clamping a drag offset into `[-startx, w - startx]` keeps the knob on a track of width `w`. */
  lemma OffsetStaysOnTrack(startx: real, w: real, moved: real)
    ensures var x := startx + Min(w - startx, Max(-startx, moved));
            && (0.0 <= startx <= w ==> 0.0 <= x <= w)
            && (0.0 <= startx + moved <= w ==> x == startx + moved)
  {
  }

  // ---------------------------------------------------------------------------
  // Keyboard
  // ---------------------------------------------------------------------------

  /** Whether a key goes to `_incrementKey` (rather than `_decrementKey`); left and right swap under RTL. */
  predicate MovesUp(isRTL: bool, key: Key)
  {
    match key
    case Left => isRTL
    case Right => !isRTL
    case Up | PageUp | End => true
    case Down | PageDown | Home => false
  }

  /**
   * The value a key press leaves: nothing changes while disabled, `End` and
   * `Home` jump to the bounds, every other key steps by `step` towards its
   * direction, clamped into the range.
   */
  function KeyValue(isRTL: bool, disabled: bool, key: Key, value: real, min: real, max: real, step: real): (r: real)
    ensures disabled ==> r == value
    ensures !disabled && key == End ==> r == max
    ensures !disabled && key == Home ==> r == min
    ensures !disabled && min <= max ==> min <= r <= max
    ensures !disabled && key != End && key != Home && min <= value <= max && 0.0 <= step ==>
              if MovesUp(isRTL, key) then value <= r else r <= value
  {
    if disabled then value
    else if MovesUp(isRTL, key) then
      if key == End then max else ClampValue(min, max, value + step)
    else
      if key == Home then min else ClampValue(min, max, value - step)
  }

  /** Under RTL the left and right arrows trade places; every other key means the same. */
  lemma RightToLeftMirrorsArrows(disabled: bool, value: real, min: real, max: real, step: real)
    ensures KeyValue(true, disabled, Left, value, min, max, step)
            == KeyValue(false, disabled, Right, value, min, max, step)
    ensures KeyValue(true, disabled, Right, value, min, max, step)
            == KeyValue(false, disabled, Left, value, min, max, step)
    ensures forall k: Key :: k != Left && k != Right ==>
              KeyValue(true, disabled, k, value, min, max, step)
              == KeyValue(false, disabled, k, value, min, max, step)
  {
  }

  // ---------------------------------------------------------------------------
  // CSS class names
  // ---------------------------------------------------------------------------

  /** The class names whose flag is set, in the order given. */
  function Selected(classes: seq<(string, bool)>): (names: seq<string>)
    ensures |names| <= |classes|
    ensures forall n :: n in names ==> exists i :: 0 <= i < |classes| && classes[i] == (n, true)
    ensures forall i :: 0 <= i < |classes| && classes[i].1 ==> classes[i].0 in names
  {
    if classes == [] then []
    else if classes[0].1 then [classes[0].0] + Selected(classes[1..])
    else Selected(classes[1..])
  }

  /** Every name appears once. */
  predicate DistinctNames(classes: seq<(string, bool)>)
  {
    forall i, j :: 0 <= i < j < |classes| ==> classes[i].0 != classes[j].0
  }

  /** With distinct names, a name is selected exactly when its own flag is set. */
  lemma SelectedHas(classes: seq<(string, bool)>, i: int)
    requires DistinctNames(classes) && 0 <= i < |classes|
    ensures classes[i].0 in Selected(classes) <==> classes[i].1
  {
    if classes[i].0 in Selected(classes) {
      var j :| 0 <= j < |classes| && classes[j] == (classes[i].0, true);
      assert !(i < j) && !(j < i);
    }
  }

  /** The length of the leading run of non-space characters. */
  function WordLen(s: string): (n: nat)
    ensures n <= |s|
    ensures forall k :: 0 <= k < n ==> s[k] != ' '
    ensures n < |s| ==> s[n] == ' '
  {
    if s == [] || s[0] == ' ' then 0 else 1 + WordLen(s[1..])
  }

  /** The space-separated words of a class attribute, as a browser's class list reads them. */
  function Tokens(s: string): seq<string>
    decreases |s|
  {
    if s == [] then []
    else if s[0] == ' ' then Tokens(s[1..])
    else
      var n := WordLen(s);
      [s[..n]] + Tokens(s[n..])
  }

  /** A usable class name: not empty and without spaces. */
  predicate ClassName(n: string)
  {
    n != [] && forall k :: 0 <= k < |n| ==> n[k] != ' '
  }

  /** The leading word of a name followed by more text is exactly that name. */
  lemma {:induction false} WordLenOf(n: string, rest: string)
    requires ClassName(n)
    requires rest == [] || rest[0] == ' '
    ensures WordLen(n + rest) == |n|
    decreases |n|
  {
    if |n| > 1 {
      assert (n + rest)[1..] == n[1..] + rest;
      WordLenOf(n[1..], rest);
    } else {
      assert (n + rest)[1..] == rest;
    }
  }

  /** A class name on its own reads back as itself. */
  lemma TokensOfName(n: string)
    ensures ClassName(n) ==> Tokens(n) == [n]
  {
    if ClassName(n) {
      WordLenOf(n, []);
      assert n + [] == n;
      assert n[..|n|] == n;
      assert n[|n|..] == [];
    }
  }

  /** A class name, a space and more text read back as that name, then the words of the rest. */
  lemma TokensOfCons(n: string, rest: string)
    ensures ClassName(n) ==> Tokens(n + " " + rest) == [n] + Tokens(rest)
  {
    if ClassName(n) {
      var tail := " " + rest;
      var s := n + tail;
      assert n + " " + rest == s;
      WordLenOf(n, tail);
      assert s[..|n|] == n;
      assert s[|n|..] == tail;
      assert tail[1..] == rest;
    }
  }

  /** Names separated by single spaces; a class list reads usable names back unchanged. */
  function Join(names: seq<string>): (s: string)
    ensures (forall i :: 0 <= i < |names| ==> ClassName(names[i])) ==> Tokens(s) == names
    decreases |names|
  {
    if names == [] then ""
    else if |names| == 1 then
      TokensOfName(names[0]);
      names[0]
    else
      var rest := Join(names[1..]);
      TokensOfCons(names[0], rest);
      assert [names[0]] + names[1..] == names;
      names[0] + " " + rest
  }

  /**
   * `_mergeClasses`: the names whose flag is truthy, in order, joined by
   * single spaces. With usable names, the class list it yields holds exactly
   * those names, in order.
   */
  function MergeClasses(classes: seq<(string, bool)>): (s: string)
    ensures (forall i :: 0 <= i < |classes| ==> ClassName(classes[i].0)) ==> Tokens(s) == Selected(classes)
  {
    var names := Selected(classes);
    assert (forall i :: 0 <= i < |classes| ==> ClassName(classes[i].0)) ==>
           forall k :: 0 <= k < |names| ==> ClassName(names[k]) by {
      forall k | 0 <= k < |names|
        ensures names[k] in names
      {
      }
    }
    Join(names)
  }

  // ---------------------------------------------------------------------------
  // The knob
  // ---------------------------------------------------------------------------

  class SliderKnob {
    var value: real
    var immediateValue: real
    /** Position of the knob along the track, in percent. */
    var ratio: real
    var min: real
    var max: real
    var step: real
    var disabled: bool
    var pin: bool
    var snaps: bool
    var expand: bool
    var dragging: bool
    var transiting: bool
    /** Drag geometry: track width, knob position, drag start and the allowed offsets. */
    var w: real
    var x: real
    var startx: real
    var knobstartx: real
    var minx: real
    var maxx: real
    /** Events fired so far, oldest first. */
    var fired: seq<KnobEvent>
    /** Whether the page lays the knob out right to left. */
    const isRTL: bool
    /** The range mixin's snapping to `step`. */
    const calcStep: real -> real

    /** While a drag is active the allowed offsets are those measured from its start. */
    ghost predicate Valid()
      reads this
    {
      dragging ==> minx == -startx && maxx == w - startx
    }

    constructor (min: real, max: real, step: real, value: real, isRTL: bool, calcStep: real -> real)
      ensures Valid()
      ensures this.min == min && this.max == max && this.step == step && this.value == value
      ensures this.isRTL == isRTL && this.calcStep == calcStep
      ensures immediateValue == 0.0 && ratio == 0.0
      ensures !disabled && !pin && !snaps && !expand && !dragging && !transiting
      ensures fired == []
    {
      this.min := min;
      this.max := max;
      this.step := step;
      this.value := value;
      this.isRTL := isRTL;
      this.calcStep := calcStep;
      immediateValue := 0.0;
      ratio := 0.0;
      disabled := false;
      pin := false;
      snaps := false;
      expand := false;
      dragging := false;
      transiting := false;
      w := 0.0;
      x := 0.0;
      startx := 0.0;
      knobstartx := 0.0;
      minx := 0.0;
      maxx := 0.0;
      fired := [];
    }

    /** `increment`: one step up, but not above `max`. */
    method Increment()
      modifies this`value
      ensures value == ClampValue(min, max, old(value) + step)
      ensures value <= max
      ensures min <= old(value) <= max && 0.0 <= step ==> old(value) <= value
    {
      value := ClampValue(min, max, value + step);
    }

    /** `decrement`: one step down, but not below `min`. */
    method Decrement()
      modifies this`value
      ensures value == ClampValue(min, max, old(value) - step)
      ensures min <= max ==> min <= value
      ensures min <= old(value) <= max && 0.0 <= step ==> value <= old(value)
    {
      value := ClampValue(min, max, value - step);
    }

    /** `_immediateValueChanged`: report the value while dragging, commit it otherwise. */
    method ImmediateValueChanged()
      modifies this`value, this`fired
      ensures dragging ==> value == old(value) && fired == old(fired) + [ImmediateValueChange]
      ensures !dragging ==> value == immediateValue && fired == old(fired)
    {
      if dragging {
        fired := fired + [ImmediateValueChange];
      } else {
        value := immediateValue;
      }
    }

    /** `_expandKnob`. */
    method ExpandKnob()
      modifies this`expand
      ensures expand
    {
      expand := true;
    }

    /** `_resetKnob`. */
    method ResetKnob()
      modifies this`expand
      ensures !expand
    {
      expand := false;
    }

    /** `_trackStart` on a track `trackWidth` wide: the drag starts where the knob is. */
    method TrackStart(trackWidth: real)
      modifies this`transiting, this`w, this`x, this`startx, this`knobstartx, this`minx, this`maxx,
               this`dragging, this`fired
      ensures Valid()
      ensures dragging && !transiting
      ensures w == trackWidth && x == TrackPosition(ratio, trackWidth)
      ensures startx == x && knobstartx == startx
      ensures minx == -startx && maxx == w - startx
      ensures fired == old(fired) + [KnobDown]
    {
      transiting := false;
      w := trackWidth;
      x := TrackPosition(ratio, w);
      startx := x;
      knobstartx := startx;
      minx := -startx;
      maxx := w - startx;
      dragging := true;
      fired := fired + [KnobDown];
    }

    /**
     * `_trackX`: the drag moved `dx` pixels from its start; a drag that was
     * not active starts first. The offset, mirrored under RTL, is clamped so
     * the knob stays on the track, and the immediate value follows it.
     */
    method TrackX(dx: real, trackWidth: real)
      requires Valid()
      requires (if dragging then w else trackWidth) != 0.0
      modifies this`transiting, this`w, this`x, this`startx, this`knobstartx, this`minx, this`maxx,
               this`dragging, this`fired, this`immediateValue
      ensures Valid() && dragging
      ensures old(dragging) ==> w == old(w) && startx == old(startx) && fired == old(fired)
                                && transiting == old(transiting) && knobstartx == old(knobstartx)
      ensures !old(dragging) ==> w == trackWidth && startx == TrackPosition(ratio, trackWidth)
                                 && fired == old(fired) + [KnobDown] && !transiting && knobstartx == startx
      ensures var moved := if isRTL then -dx else dx;
              x == startx + Min(w - startx, Max(-startx, moved))
      ensures 0.0 <= startx <= w ==> 0.0 <= x <= w
      ensures var moved := if isRTL then -dx else dx;
              0.0 <= startx + moved <= w ==> x == startx + moved
      ensures immediateValue == calcStep(CalcKnobPosition(min, max, x / w * 100.0))
      ensures 0.0 < w && 0.0 <= startx <= w && min <= max ==>
                min <= CalcKnobPosition(min, max, x / w * 100.0) <= max
    {
      if !dragging {
        TrackStart(trackWidth);
      }
      var moved := if isRTL then -dx else dx;
      var offset := Min(maxx, Max(minx, moved));
      x := startx + offset;
      OffsetStaysOnTrack(startx, w, moved);
      immediateValue := calcStep(CalcKnobPosition(min, max, x / w * 100.0));
      if 0.0 < w && 0.0 <= startx <= w && min <= max {
        TrackRatioWithin(x, w);
        KnobPositionWithin(min, max, x / w * 100.0);
      }
    }

    /** `_trackEnd`: the drag stops, the knob shrinks back, and the immediate value is committed. */
    method TrackEnd()
      modifies this`dragging, this`expand, this`value, this`fired
      ensures Valid()
      ensures !dragging && !expand
      ensures value == immediateValue
      ensures fired == old(fired) + [Change]
    {
      dragging := false;
      ResetKnob();
      value := immediateValue;
      fired := fired + [Change];
    }

    /** `_incrementKey`: `End` jumps to `max`, any other key steps up; nothing happens while disabled. */
    method IncrementKey(key: Key)
      modifies this`value, this`fired
      ensures disabled ==> value == old(value) && fired == old(fired)
      ensures !disabled ==> fired == old(fired) + [Change]
      ensures !disabled ==> value == if key == End then max else ClampValue(min, max, old(value) + step)
    {
      if !disabled {
        if key == End {
          value := max;
        } else {
          Increment();
        }
        fired := fired + [Change];
      }
    }

    /** `_decrementKey`: `Home` jumps to `min`, any other key steps down; nothing happens while disabled. */
    method DecrementKey(key: Key)
      modifies this`value, this`fired
      ensures disabled ==> value == old(value) && fired == old(fired)
      ensures !disabled ==> fired == old(fired) + [Change]
      ensures !disabled ==> value == if key == Home then min else ClampValue(min, max, old(value) - step)
    {
      if !disabled {
        if key == Home {
          value := min;
        } else {
          Decrement();
        }
        fired := fired + [Change];
      }
    }

    /** `_leftKey`: a step up under RTL, a step down otherwise. */
    method LeftKey(key: Key)
      modifies this`value, this`fired
      ensures key == Left ==> value == KeyValue(isRTL, disabled, key, old(value), min, max, step)
      ensures fired == old(fired) + (if disabled then [] else [Change])
    {
      if isRTL {
        IncrementKey(key);
      } else {
        DecrementKey(key);
      }
    }

    /** `_rightKey`: a step down under RTL, a step up otherwise. */
    method RightKey(key: Key)
      modifies this`value, this`fired
      ensures key == Right ==> value == KeyValue(isRTL, disabled, key, old(value), min, max, step)
      ensures fired == old(fired) + (if disabled then [] else [Change])
    {
      if isRTL {
        DecrementKey(key);
      } else {
        IncrementKey(key);
      }
    }

    /** The key bindings: each key goes to the handler its binding names. */
    method KeyDown(key: Key)
      modifies this`value, this`fired
      ensures value == KeyValue(isRTL, disabled, key, old(value), min, max, step)
      ensures fired == old(fired) + (if disabled then [] else [Change])
    {
      match key
      case Left => LeftKey(key);
      case Right => RightKey(key);
      case Down | PageDown | Home => DecrementKey(key);
      case Up | PageUp | End => IncrementKey(key);
    }

    /** The flags `_getClassNames` hands to `_mergeClasses`, in its key order. */
    function ClassFlags(): (flags: seq<(string, bool)>)
      reads this
      ensures |flags| == 7 && DistinctNames(flags)
      ensures forall i :: 0 <= i < |flags| ==> ClassName(flags[i].0)
    {
      [("disabled", disabled), ("pin", pin), ("snaps", snaps), ("ring", immediateValue <= min),
       ("expand", expand), ("dragging", dragging), ("transiting", transiting)]
    }

    /** `_getClassNames`: each class is on the knob exactly when its flag is set. */
    function GetClassNames(): (s: string)
      reads this
      ensures "disabled" in Tokens(s) <==> disabled
      ensures "pin" in Tokens(s) <==> pin
      ensures "snaps" in Tokens(s) <==> snaps
      ensures "ring" in Tokens(s) <==> immediateValue <= min
      ensures "expand" in Tokens(s) <==> expand
      ensures "dragging" in Tokens(s) <==> dragging
      ensures "transiting" in Tokens(s) <==> transiting
    {
      var flags := ClassFlags();
      SelectedHas(flags, 0);
      SelectedHas(flags, 1);
      SelectedHas(flags, 2);
      SelectedHas(flags, 3);
      SelectedHas(flags, 4);
      SelectedHas(flags, 5);
      SelectedHas(flags, 6);
      MergeClasses(flags)
    }
  }
}
