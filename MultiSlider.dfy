/**
 * The multi-slider element: a group of knobs over one range whose values
 * are kept apart by at least `_valueDiffMin`. Moving one knob may push its
 * neighbours; every value written is announced as a
 * `multi-slider-value-changed` event, modelled here as the `(index, value)`
 * pair appended to `events`.
 */
module Slider {
  import opened Wrappers
  import opened JsMath
  import opened Constraint
  import opened Knob

  /** The JavaScript values a setter may be handed. */
  datatype JsValue = Undefined | Null | Bool(b: bool) | Number(n: real) | NaN | Str(s: string) | Object

  /**
   * `_toBool`: the strings `'false'` and `'0'` are false; every other value
   * converts as JavaScript's `Boolean(v)` does.
   */
  function ToBool(v: JsValue): (r: bool)
    ensures v.Bool? ==> r == v.b
    ensures v.Number? ==> (r <==> v.n != 0.0)
    ensures v.Str? ==> (r <==> v.s !in {"", "false", "0"})
    ensures v.Undefined? || v.Null? || v.NaN? ==> !r
    ensures v.Object? ==> r
  {
    if v == Str("false") || v == Str("0") then false
    else
      match v
      case Undefined | Null | NaN => false
      case Bool(b) => b
      case Number(n) => n != 0.0
      case Str(s) => s != ""
      case Object => true
  }

  lemma AppendAssoc<T>(a: seq<T>, b: seq<T>, c: seq<T>, d: seq<T>)
    ensures a + b + c + d == a + (b + c + d)
  {
  }

  class MultiSlider {
    var min: real
    var max: real
    var step: real
    /** The public gap settings. */
    var valueDiffMin: real
    var valueDiffMax: real
    /** `_valueDiffMin` and `_valueDiffMax`, the gaps in force. */
    var diffMin: real
    var diffMax: real
    var alwaysShowPin: bool
    var pin: bool
    var disabled: bool
    var tapValueMove: bool
    /** The knob values, in knob order. */
    var values: seq<real>
    /** The `multi-slider-value-changed` events dispatched so far, oldest first. */
    var events: seq<(int, real)>

    /** The range and gap the cascade works with. */
    function Conf(): (c: Range)
      reads this`min, this`max, this`diffMin
      ensures c.min == min && c.max == max && c.diffMin == diffMin
    {
      Range(min, max, diffMin)
    }

    /** A slider with the property defaults, after `_setValueDiff` has run. */
    constructor (values: seq<real>)
      ensures min == 0.0 && max == 100.0 && step == 1.0
      ensures valueDiffMin == 0.0 && valueDiffMax == 0.0 && diffMin == 0.0 && diffMax == 0.0
      ensures !alwaysShowPin && !pin && !disabled && !tapValueMove
      ensures this.values == values && events == []
    {
      min := 0.0;
      max := 100.0;
      step := 1.0;
      valueDiffMin := 0.0;
      valueDiffMax := 0.0;
      diffMin := 0.0;
      diffMax := 0.0;
      alwaysShowPin := false;
      pin := false;
      disabled := false;
      tapValueMove := false;
      this.values := values;
      events := [];
    }

    /** `_setSliderValue`: write one knob and announce it. */
    method SetSliderValue(index: int, value: real)
      requires 0 <= index < |values|
      modifies this`values, this`events
      ensures values == old(values)[index := value]
      ensures events == old(events) + [(index, value)]
    {
      values := values[index := value];
      events := events + [(index, value)];
    }

    /**
     * `_setValueForIndex`: resolves a proposal for knob `index` exactly as
     * `Run` does, given enough `fuel` for its recursion to finish with the
     * outcome `o`.
     */
    method SetValueForIndex(index: int, value: real, ghost fuel: nat, ghost o: Outcome) returns (r: real)
      requires 0 <= index < |values|
      requires Run(Conf(), fuel, values, index, value) == Some(o)
      modifies this`values, this`events
      ensures values == o.values && events == old(events) + o.emitted && r == o.result
      decreases fuel, 0
    {
      var c := Conf();
      ghost var events0 := events;
      ghost var e1, e2 := RunSteps(c, fuel, values, index, value);
      if IndexHasLeftSlider(values, index) {
        var prevSliderValue := values[index - 1];
        if CheckForValueDiffMin(c, value, prevSliderValue) && values[index - 1] > c.min {
          ghost var o1 := PushLeftTaken(c, fuel - 1, values, index, value, e1);
          var proposal := ValidValueToSet(c, value - c.diffMin, None, None);
          var pushed := SetPreviousSliderValue(index, proposal, fuel - 1, o1);
        }
      }
      assert values == e1.values && events == events0 + e1.emitted;
      ghost var events1 := events;
      if IndexHasRightSlider(values, index) {
        var nextSliderValue := values[index + 1];
        if CheckForValueDiffMin(c, nextSliderValue, value) && values[index + 1] < c.max {
          ghost var o2 := PushRightTaken(c, fuel - 1, values, index, value, e2);
          var proposal := ValidValueToSet(c, value + c.diffMin, None, None);
          assert Conf() == c;
          var pushed := SetNextSliderValue(index, proposal, fuel - 1, o2);
        }
      }
      assert values == e2.values && events == events1 + e2.emitted;
      var previousValue := PreviousSliderValue(values, index);
      var nextValue := NextSliderValue(values, index);
      r := ValidValueToSet(c, value, previousValue, nextValue);
      SetSliderValue(index, r);
      AppendAssoc(events0, e1.emitted, e2.emitted, [(index, r)]);
    }

    /** `_setPreviousSliderValue`: resolve a proposal for the knob left of `index`. */
    method SetPreviousSliderValue(index: int, value: real, ghost fuel: nat, ghost o: Outcome) returns (r: real)
      requires 0 <= index - 1 < |values|
      requires Run(Conf(), fuel, values, index - 1, value) == Some(o)
      modifies this`values, this`events
      ensures values == o.values && events == old(events) + o.emitted && r == o.result
      decreases fuel, 1
    {
      r := SetValueForIndex(index - 1, value, fuel, o);
    }

    /** `_setNextSliderValue`: resolve a proposal for the knob right of `index`. */
    method SetNextSliderValue(index: int, value: real, ghost fuel: nat, ghost o: Outcome) returns (r: real)
      requires 0 <= index + 1 < |values|
      requires Run(Conf(), fuel, values, index + 1, value) == Some(o)
      modifies this`values, this`events
      ensures values == o.values && events == old(events) + o.emitted && r == o.result
      decreases fuel, 1
    {
      r := SetValueForIndex(index + 1, value, fuel, o);
    }

    /**
     * `_sliderChange`: knob `index` reports a committed move. Its immediate
     * value is resolved against the group, the knob is set to the resolved
     * value, that value is announced a second time, and the knob's pin is
     * expanded when pins always show. The resolution must finish within
     * `fuel` levels; from a spaced group `|values|` levels always suffice
     * (`CascadeSettles`), and the group stays spaced.
     */
    method SliderChange(knob: SliderKnob, index: int, ghost fuel: nat)
      requires 0 <= index < |values|
      requires Run(Conf(), fuel, values, index, knob.immediateValue).Some?
      modifies this`values, this`events, knob`value, knob`expand
      ensures var o := Run(Conf(), fuel, old(values), index, knob.immediateValue).value;
              && values == o.values
              && events == old(events) + o.emitted + [(index, o.result)]
              && knob.value == o.result
      ensures knob.expand == (alwaysShowPin || old(knob.expand))
      ensures Spaced(Conf(), old(values)) ==> Spaced(Conf(), values)
    {
      ghost var o := Run(Conf(), fuel, values, index, knob.immediateValue).value;
      ResolutionKeepsSpaced(Conf(), fuel, values, index, knob.immediateValue);
      var value := SetValueForIndex(index, knob.immediateValue, fuel, o);
      knob.value := value;
      events := events + [(index, value)];
      if alwaysShowPin {
        knob.ExpandKnob();
      }
    }

    /** `_immediateValueChange`: knob `index` reports a move while being dragged. */
    method ImmediateValueChange(knob: SliderKnob, index: int, ghost fuel: nat)
      requires 0 <= index < |values|
      requires Run(Conf(), fuel, values, index, knob.immediateValue).Some?
      modifies this`values, this`events
      ensures var o := Run(Conf(), fuel, old(values), index, knob.immediateValue).value;
              values == o.values && events == old(events) + o.emitted
      ensures Spaced(Conf(), old(values)) ==> Spaced(Conf(), values)
    {
      ghost var o := Run(Conf(), fuel, values, index, knob.immediateValue).value;
      ResolutionKeepsSpaced(Conf(), fuel, values, index, knob.immediateValue);
      var value := SetValueForIndex(index, knob.immediateValue, fuel, o);
    }

    /** `init`, without its scheduling: normalise `disabled`, show pins, set the gaps, expand every knob. */
    method Init(knobs: seq<SliderKnob>)
      modifies this`disabled, this`pin, this`diffMin, this`diffMax, knobs`expand
      ensures disabled == old(disabled)
      ensures pin == (alwaysShowPin || old(pin))
      ensures diffMin == Max(valueDiffMin, 0.0) && diffMax == Max(valueDiffMax, 0.0)
      ensures forall k :: k in knobs ==> k.expand == (alwaysShowPin || old(k.expand))
    {
      SetDisabled(Bool(disabled));
      if alwaysShowPin {
        pin := true;
      }
      SetValueDiff();
      if alwaysShowPin {
        ExpandKnobForAll(knobs);
      }
    }

    /** `_expandKnowForAll`. */
    method ExpandKnobForAll(knobs: seq<SliderKnob>)
      modifies knobs`expand
      ensures forall k :: k in knobs ==> k.expand
    {
      for i := 0 to |knobs|
        invariant forall j :: 0 <= j < i ==> knobs[j].expand
      {
        knobs[i].ExpandKnob();
      }
    }

    /** `_setValueDiff`: the gaps in force are the public settings, never below zero. */
    method SetValueDiff()
      modifies this`diffMin, this`diffMax
      ensures diffMin == Max(valueDiffMin, 0.0) && diffMax == Max(valueDiffMax, 0.0)
      ensures 0.0 <= diffMin && 0.0 <= diffMax
      ensures 0.0 <= valueDiffMin ==> diffMin == valueDiffMin
    {
      diffMax := Max(valueDiffMax, 0.0);
      diffMin := Max(valueDiffMin, 0.0);
    }

    /** `setValueDiffMin`: stores the gap as given, a negative one included. */
    method SetValueDiffMin(v: real)
      modifies this`diffMin
      ensures diffMin == v
    {
      diffMin := v;
    }

    /** `setValueDiffMax`: stores the gap as given. */
    method SetValueDiffMax(v: real)
      modifies this`diffMax
      ensures diffMax == v
    {
      diffMax := v;
    }

    /** `setStep`. */
    method SetStep(v: real)
      modifies this`step
      ensures step == v
    {
      step := v;
    }

    /** `setTapValueMove`. */
    method SetTapValueMove(v: JsValue)
      modifies this`tapValueMove
      ensures tapValueMove == ToBool(v)
    {
      tapValueMove := ToBool(v);
    }

    /** `setDisabled`, without its writes to the knobs' styles. */
    method SetDisabled(v: JsValue)
      modifies this`disabled
      ensures disabled == ToBool(v)
    {
      disabled := ToBool(v);
    }
  }
}
