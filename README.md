# Multi-slider: neighbour constraints and knob state machine

This project models two parts of a multi-knob slider web component:

- **The neighbour-constraint cascade of `multi-slider.js`.** A group of knobs
  shares one range `[min, max]`. Neighbouring knob values must stay at least
  `_valueDiffMin` apart. A proposal for knob `index` may first push its left
  neighbour down and its right neighbour up, each by a recursive call. The
  proposal is then clamped against the neighbours as they stand after the
  pushes, and written. Every write dispatches a `multi-slider-value-changed`
  event. Here that event is the pair `(index, value)` appended to a log.
- **The drag and keyboard state machine of `slider-knob.js`.** This covers
  drag start, move and end with the track geometry, the commit of the
  immediate value, stepping and home/end jumps, mirroring of keys and drag
  direction under right-to-left layout, and the knob's class list.

Layout of the project:

- `Constraint.dfy` (module `Constraint`): the cascade as pure functions over
  a sequence of knob values.
  - `Run`, `PushLeft` and `PushRight` are the recursion of `_setValueForIndex`.
    They carry a `fuel` bound because the source recursion need not end.
  - The lemmas cover the clamp, the push conditions, termination and shape
    under the spacing invariant, idempotence and why it needs that invariant,
    a concrete loop that never ends, and four concrete cascades.
- `MultiSlider.dfy` (module `Slider`): the element as a class.
  - It holds the knob values in `values` and the event log in `events`.
  - `SetValueForIndex`, `SetPreviousSliderValue` and `SetNextSliderValue` are
    mutually recursive methods. They update the fields in place, in the
    source's order.
  - Each is proved to leave exactly the state that `Run` describes.
- `SliderKnob.dfy` (module `Knob`): the knob as a class, plus pure helpers.
  - The class fields are the knob's value, immediate value, flags and drag
    geometry.
  - The pure helpers are the clamp, the ratio-to-value map, key resolution
    and class-name merging.
- `JsMath.dfy` and `Wrappers.dfy`: `Math.max`/`Math.min`, and `Option`. `None`
  stands for JavaScript's `undefined` neighbour.

Values are `real`. JavaScript numbers are taken to be exact and never NaN.

### Behaviour worth knowing

- A leftward cascade writes the lowest pushed knob first. A rightward cascade
  writes the farthest knob first and the trigger last, so its events come in
  descending index order (`RightShape`, `Descending`).
- Bounds win over spacing. Knobs `[0, 5]` in `0..10` with gap 10, knob 0
  moved to 10, give `[0, 10]` with events `(1, 10), (0, 0)`: knob 1 is pushed
  to the maximum and knob 0 is then held at `10 - 10 = 0` (`PushToMaximum`).
- The element validates none of its configuration; `_setValueDiff` only
  floors the gaps at 0.

## Model

| member | source | states |
|---|---|---|
| Constraint.PreviousSliderValue | multi-slider.js:206-208 | the left neighbour is defined exactly when `index - 1` is a knob, and then it is that knob's value |
| Constraint.NextSliderValue | multi-slider.js:210-212 | the right neighbour is defined exactly when `index + 1` is a knob, and then it is that knob's value |
| Constraint.IndexHasLeftSlider | multi-slider.js:194-196 | a knob has a left neighbour exactly when its left neighbour value is defined |
| Constraint.IndexHasRightSlider | multi-slider.js:198-200 | a knob has a right neighbour exactly when its right neighbour value is defined |
| Constraint.CheckForValueDiffMin | multi-slider.js:202-204 | the check is false exactly when `value` is at least `minValue + diffMin` |
| Constraint.LeftGuard | multi-slider.js:244-246 | no contract of its own: the condition for pushing the left neighbour (it exists, `value - left < diffMin` and `left > min`); what it guarantees is stated by `PushProposalBeyondNeighbour` and `CascadeSettles` |
| Constraint.RightGuard | multi-slider.js:251-253 | no contract of its own: the condition for pushing the right neighbour (it exists, `right - value < diffMin` and `right < max`); what it guarantees is stated by `PushProposalBeyondNeighbour` and `CascadeSettles` |
| Constraint.PushProposalBeyondNeighbour | multi-slider.js:244-256 | when a push is made, the proposal sent left lies strictly below the left neighbour, and the one sent right strictly above the right neighbour. The neighbour's own clamp may still return it to its old value (`PushedBackInPlace`) |
| Constraint.ValidValueToSet | multi-slider.js:224-234 | no contract of its own: clamps into `[min, max]`, then raises to `prev + diffMin`, then lowers to `next - diffMin`; its bounds are stated by `ValidValueToSetBounds` and `ClampInWindow` |
| Constraint.ValidValueToSetBounds | multi-slider.js:224-234 | the result is at most `next - diffMin` whenever `next` is given, because that bound is applied last, even when the window is empty; it is at least `prev + diffMin` when only `prev` is given; when neither is given it is the input clamped into `[min, max]`, so it lies in a non-empty range and an in-range input is unchanged; and, when the window is not empty, it is the input clamped into `[max(min, prev + diffMin), min(max, next - diffMin)]` |
| Constraint.ClampInWindow | multi-slider.js:224-234 | when the window is not empty, the result lies in it, and an input already inside it is returned unchanged |
| Constraint.Run | multi-slider.js:241-264 | a resolution that finishes keeps the number of knobs, and the value at `index` is the value it returns |
| Constraint.PushLeft | multi-slider.js:244-250 | a finished left push keeps the number of knobs |
| Constraint.PushRight | multi-slider.js:251-257 | a finished right push keeps the number of knobs |
| Constraint.RunCommitsLast | multi-slider.js:236-263 | the value written at `index` is the one returned, and its event `(index, result)` is the last one emitted |
| Constraint.RunFuelMonotone | multi-slider.js:241-264 | a resolution that finished with some recursion depth gives the same outcome with any larger depth, so the bound does not change what the code computes |
| Constraint.PushLeftFuelMonotone | multi-slider.js:244-250 | the same for a finished left push |
| Constraint.PushRightFuelMonotone | multi-slider.js:251-257 | the same for a finished right push |
| Constraint.SpacedOrdered | multi-slider.js:202-204 | a group whose neighbours are at least the gap apart (the gap being at least 0) is in ascending order |
| Constraint.CommitKeepsSpaced | multi-slider.js:236-239 | writing a value that respects the range and both neighbours keeps the group spaced |
| Constraint.LeftReach | multi-slider.js:244-250 | the leftmost knob a leftward cascade writes lies between knob 0 and the trigger |
| Constraint.RightReach | multi-slider.js:251-257 | the rightmost knob a rightward cascade writes lies between the trigger and the last knob |
| Constraint.LeftwardCascade | multi-slider.js:241-264 | from a spaced group, a proposal at `j` that is not above knob `j` finishes within `j + 1` levels. Only knobs `LeftReach..j` can change, no knob of the run is raised, the group stays spaced, and each touched knob emits exactly one event, in ascending index order |
| Constraint.LeftwardStep | multi-slider.js:241-264 | after the left push settles, the rightward push does nothing, and the committed trigger extends the leftward shape by one knob |
| Constraint.RightwardCascade | multi-slider.js:241-264 | from a spaced group, a proposal at `j` above knob `j` finishes within `|vals| - j` levels. Only knobs `j..RightReach` can change, no knob of the run is lowered, the group stays spaced, and each touched knob emits exactly one event, farthest first and the trigger last |
| Constraint.RightwardStep | multi-slider.js:241-264 | after the right push settles, the committed trigger extends the rightward shape by one knob |
| Constraint.CascadeSettles | multi-slider.js:241-264 | from a spaced group, every proposal finishes within `|vals|` levels, and the group stays spaced. Pushes go only in the trigger's direction: a leftward push is made exactly when the left guard holds, and a rightward push exactly when the right guard holds. Knobs outside the pushed run keep their values. Each touched index is written once, its event follows its write, and pushed neighbours are written before the trigger |
| Constraint.ResolutionKeepsSpaced | multi-slider.js:241-264 | whatever depth it needed, a resolution that finishes from a spaced group leaves the group spaced |
| Constraint.FeasibleProposal | multi-slider.js:241-264 | a proposal that already respects the range and both neighbours changes only its own knob, to exactly that value, with one event ; nothing is demanded of the rest of the group or of the sign of the gap |
| Constraint.CascadeIdempotent | multi-slider.js:241-264 | from a spaced group, proposing again the value a cascade settled on writes that value back, changes nothing and emits one event |
| Constraint.UnspacedNotIdempotent | multi-slider.js:241-264 | the spacing is needed for that: `[40, 50]`, gap 20, knob 1 proposing its own value 50 pushes knob 0 to 30, giving `[30, 50]` with events `(0, 30), (1, 50)` |
| Constraint.NeverSettlesUpper | multi-slider.js:241-264 | for `[40, 50]` with gap 20, moving knob 1 to 55 never finishes, whatever the fuel |
| Constraint.NeverSettlesLower | multi-slider.js:241-264 | the other half of that loop: knob 0 asked for 35 never finishes either |
| Constraint.MiddleKnobPushesLeft | multi-slider.js:241-264 | `[10, 50, 90]`, gap 20, knob 1 to 25 gives `[5, 25, 90]` with events `(0, 5), (1, 25)` |
| Constraint.StopsAtNeighbour | multi-slider.js:251-263 | `[0, 100]`, gap 50, knob 0 to 80: the right neighbour at `max` is not moved, and knob 0 is clamped to 50 |
| Constraint.PushToMaximum | multi-slider.js:251-263 | `[0, 5]` in `0..10`, gap 10, knob 0 to 10 gives `[0, 10]` with events `(1, 10), (0, 0)`, so bounds win over spacing |
| Constraint.PushedBackInPlace | multi-slider.js:244-263 | `[0, 20, 40]`, gap 20, knob 2 to 30: the left guard holds and the middle knob is sent 10, but its own clamp returns it to 20. The result is `[0, 20, 40]` with events `(1, 20), (2, 40)`: a push is a rewrite, not necessarily a move |
| Slider.ToBool | multi-slider.js:317 | the strings `'false'` and `'0'` give false. Every other value converts as `Boolean(valIn)`: booleans as given, numbers other than 0, strings other than empty, objects true, and `undefined`, `null` and NaN false |
| Slider.MultiSlider.constructor | multi-slider.js:28-136 | the property defaults (range 0..100, step 1, gaps 0, `alwaysShowPin`, `pin` and `disabled` off) and an empty event log; `tapValueMove` has no default in the source and starts false here |
| Slider.MultiSlider.SetSliderValue | multi-slider.js:236-239 | one knob is rewritten and exactly one event for it is appended |
| Slider.MultiSlider.SetValueForIndex | multi-slider.js:241-264 | the in-place recursion leaves exactly the values and event log that `Run` describes, and returns the value written at `index` |
| Slider.MultiSlider.SetPreviousSliderValue | multi-slider.js:214-217 | resolving the left neighbour in place gives `Run`'s outcome for `index - 1` |
| Slider.MultiSlider.SetNextSliderValue | multi-slider.js:219-222 | resolving the right neighbour in place gives `Run`'s outcome for `index + 1` |
| Slider.MultiSlider.SliderChange | multi-slider.js:266-278 | when the resolution finishes, the values and events are `Run`'s outcome, the knob takes the resolved value, the trigger's event is emitted a second time, the knob's pin expands when pins always show, and a spaced group stays spaced; from a spaced group it always finishes within `|values|` levels (`CascadeSettles`) |
| Slider.MultiSlider.ImmediateValueChange | multi-slider.js:280-282 | when the resolution finishes, the values and events are `Run`'s outcome, and a spaced group stays spaced |
| Slider.MultiSlider.Init | multi-slider.js:288-300 | `disabled` is normalised, pins are shown and every knob expanded when pins always show, and the gaps are set from the public settings |
| Slider.MultiSlider.ExpandKnobForAll | multi-slider.js:302-306 | every knob is expanded |
| Slider.MultiSlider.SetValueDiff | multi-slider.js:311-314 | the gaps in force are `max(valueDiffMin, 0)` and `max(valueDiffMax, 0)`, so they are never negative |
| Slider.MultiSlider.SetValueDiffMin | multi-slider.js:331-333 | the gap is stored as given, even a negative one |
| Slider.MultiSlider.SetValueDiffMax | multi-slider.js:339-341 | the maximal gap is stored as given |
| Slider.MultiSlider.SetStep | multi-slider.js:323-325 | the step is stored as given |
| Slider.MultiSlider.SetTapValueMove | multi-slider.js:347-349 | the flag is `_toBool` of the argument |
| Slider.MultiSlider.SetDisabled | multi-slider.js:359-366 | the flag is `_toBool` of the argument |
| Knob.ClampValue | slider-knob.js:152-166 | never above `max`; never below `min` when the range is not empty; an in-range value is unchanged; a value is only raised up to `max` and only lowered down to `min` |
| Knob.CalcKnobPosition | slider-knob.js:212-214 | ratio 0 maps to `min` and ratio 100 maps to `max` |
| Knob.KnobPositionMonotone | slider-knob.js:212-214 | for `min <= max`, a larger ratio never gives a smaller value |
| Knob.KnobPositionWithin | slider-knob.js:212-214 | for `min <= max`, a ratio from 0 to 100 gives a value in `[min, max]` |
| Knob.KnobPositionAffine | slider-knob.js:212-214 | the map is linear in the ratio: equal ratio steps give equal value steps |
| Knob.TrackRatioWithin | slider-knob.js:255 | a drag position inside a track of positive width is a ratio from 0 to 100 |
| Knob.OffsetStaysOnTrack | slider-knob.js:248-251 | clamping the offset into `[-startx, w - startx]` keeps the knob in `[0, w]` when the drag started on the track, and leaves an offset that stays on the track unchanged |
| Knob.KeyValue | slider-knob.js:319-355 | disabled keys change nothing; `end` gives `max` and `home` gives `min`; the result stays in a non-empty range; the other keys never move the value against their direction |
| Knob.MovesUp | slider-knob.js:134-141 | no contract of its own: the key table, with left and right sending to the handler that `_leftKey`/`_rightKey` pick under the layout direction (lines 319-331); its meaning is stated by `KeyValue` and `RightToLeftMirrorsArrows` |
| Knob.RightToLeftMirrorsArrows | slider-knob.js:319-331 | under right-to-left layout the left and right arrows swap meaning, and every other key means the same |
| Knob.Selected | slider-knob.js:293-298 | the selected names are exactly the names whose flag is set |
| Knob.SelectedHas | slider-knob.js:293-298 | with distinct names, a name is selected exactly when its own flag is set |
| Knob.WordLen | slider-knob.js:293-298 | the length of the leading word, which ends at the first space |
| Knob.WordLenOf | slider-knob.js:293-298 | a class name followed by a space or the end has that name as its leading word |
| Knob.TokensOfName | slider-knob.js:297 | a class name on its own reads back as the one-name class list |
| Knob.TokensOfCons | slider-knob.js:297 | a class name, a space and more text read back as that name followed by the words of the rest |
| Knob.Join | slider-knob.js:297 | joining usable class names (non-empty, without spaces) by single spaces and reading the class list back gives the names again, in order |
| Knob.MergeClasses | slider-knob.js:293-298 | with usable class names, the class list of the merged string is exactly the names whose flag is set, in key order |
| Knob.SliderKnob.constructor | slider-knob.js:63-93 | the knob's initial range, value and flags, with no drag active and no events fired |
| Knob.SliderKnob.Increment | slider-knob.js:152-158 | the value becomes `clamp(value + step)`: never above `max`, and never lower than an in-range starting value for a non-negative step |
| Knob.SliderKnob.Decrement | slider-knob.js:160-166 | the value becomes `clamp(value - step)`: never below `min` in a non-empty range, and never higher than an in-range starting value for a non-negative step |
| Knob.SliderKnob.ImmediateValueChanged | slider-knob.js:180-186 | while dragging, only an `immediate-value-change` event is fired; otherwise the immediate value is committed to `value` |
| Knob.SliderKnob.ExpandKnob | slider-knob.js:192-194 | the knob is expanded |
| Knob.SliderKnob.ResetKnob | slider-knob.js:196-199 | the knob is no longer expanded |
| Knob.SliderKnob.TrackStart | slider-knob.js:231-242 | dragging is on and transiting off; `_startx = _knobstartx = _x = ratio * _w / 100`, `_minx = -_startx` and `_maxx = _w - _startx`; `slider-knob-down` is fired |
| Knob.SliderKnob.TrackX | slider-knob.js:244-261 | a drag first starts if none is active, setting `_knobstartx` to the start; otherwise `_w`, `_startx` and `_knobstartx` are kept. The offset, negated under right-to-left layout, is clamped so the knob stays in `[0, _w]` and an on-track offset is kept exactly. The immediate value is the stepped position at the knob's ratio, and that position lies in `[min, max]` |
| Knob.SliderKnob.TrackEnd | slider-knob.js:263-274 | dragging stops, the knob shrinks back, the immediate value is committed to `value`, and `change` is fired |
| Knob.SliderKnob.IncrementKey | slider-knob.js:333-343 | unless disabled, `end` jumps to `max`, other keys step up, and `change` is fired; when disabled nothing changes |
| Knob.SliderKnob.DecrementKey | slider-knob.js:345-355 | unless disabled, `home` jumps to `min`, other keys step down, and `change` is fired; when disabled nothing changes |
| Knob.SliderKnob.LeftKey | slider-knob.js:319-324 | the left arrow steps up under right-to-left layout and down otherwise, firing `change` unless disabled |
| Knob.SliderKnob.RightKey | slider-knob.js:326-331 | the right arrow steps down under right-to-left layout and up otherwise, firing `change` unless disabled |
| Knob.SliderKnob.KeyDown | slider-knob.js:134-141 | each bound key goes to its handler, leaving the value `KeyValue` describes |
| Knob.SliderKnob.ClassFlags | slider-knob.js:301-309 | seven flags with distinct, usable class names, as the keys of the object literal |
| Knob.SliderKnob.GetClassNames | slider-knob.js:300-310 | each of `disabled`, `pin`, `snaps`, `expand`, `dragging` and `transiting` is in the class list exactly when its flag is set, and `ring` exactly when `immediateValue <= min` |

## Left out

- Rendering and the Polymer element machinery: the DOM, styles, `translate3d`, ripple and focus handling, `_colorChanged`, `_containerColorChanged`, `getEle`, `ready` and `_listen`. None of it affects the values.
- `horizontal-bar.js`: it only computes bar widths and colours for display. `horizontal-bar.js` is not part of this model.
- Property observers do not fire on their own. `_immediateValueChanged` is the method `ImmediateValueChanged`, which a caller invokes. `_valueChanged` only fires `value-change`, and is left out.
- The observer chain from `value` back to `value` is not modelled. In the source, a change of `value` runs `_updateKnob`, which calls `_positionKnob`. That method sets `immediateValue` to `_calcStep(_calcKnobPosition(ratio))` from the new ratio, sets `ratio`, and while dragging sets `_knobstartx`. A knob that is not dragging then takes that `immediateValue` as its `value` through `_immediateValueChanged`. So after `increment`, `decrement`, the key handlers and `_trackEnd`, the source passes `value` through `_calcStep` once more. The model's `value` is the one the handler wrote, before that re-stepping, and `immediateValue` and `ratio` are not updated from it.
- `_secondaryProgressChanged` clamps `secondaryProgress`, which nothing else reads; it is left out.
- `_positionKnob` and `_calcRatio` are left out (see the observer chain above), so the knob's `ratio` is a field that nothing here recomputes.
- `_knobdown` expands the knob (it calls `_expandKnob`, modelled as `ExpandKnob`), cancels text selection and takes focus; the handler itself is left out.
- `_knobTransitionEnd` clears `transiting` when the knob's own transition ends; it is left out, so `transiting` changes only in `TrackStart`.
- `_changeValue` sets `value` from an input element and fires `change`; it is left out together with the input element. `_inputKeyDown` only stops event propagation.
- The range mixin is not shown in the source. `_clampValue` is modelled as a clamp to `[min, max]`, as the knob's own doc comments say; `_calcRatio` is left out. Knob.SliderKnob.TrackX: `_calcStep` is an opaque function `calcStep` of the knob, so the contract says nothing about step snapping.
- Clocks and scheduling: `requestAnimationFrame` in `init`, `ready`, `_sliderCountChanged` and the bar. Also the `expandKnob` debouncer and `transDuration`. `Init` runs its steps at once.
- Inputs from the page are parameters. The track width is `trackWidth` and the drag distance is `dx`. `_isRTL` is the constant `isRTL` of the knob, and the knob index (from `indexForElement`) is a parameter of `SliderChange`.
- `getAllSlider`, `getFocusedSlider` and the DOM writes of `setDisabled` are queries or style writes and are left out.
- Knob.SliderKnob.TrackX: requires a non-zero track width. With width 0 the source divides by zero, and NaN is not modelled.
- Floating point: values are exact reals. Rounding, NaN and `Infinity` are not modelled.
- `diffMax` is stored but, as in the source, never enforced.
- Termination and spacing are proved only for a gap of at least 0. `SetValueDiffMin` stores a negative `diffMin` as the source does, but the spacing invariant `Spaced` includes `0 <= diffMin`, so `CascadeSettles`, `ResolutionKeepsSpaced`, `CascadeIdempotent` and the `Spaced(old) ==> Spaced(new)` clause of `SliderChange` and `ImmediateValueChange` say nothing once the gap is negative. `FeasibleProposal` makes no demand on the gap.
- Slider.MultiSlider.SliderChange: requires that the resolution finish within a ghost depth `fuel`. Where the source's recursion never ends (`NeverSettlesUpper`) the model has no behaviour; the source would overflow its stack there.
- Slider.MultiSlider.ImmediateValueChange: requires that the resolution finish, for the same reason.
- Slider.MultiSlider.constructor: starts from the state after `_setValueDiff` has run, rather than the moment before `init` when the internal gaps are still undefined. `tapValueMove` has no default in the source (it reads `undefined`, which is falsy); the model starts it at `false`.
- Reentrancy and concurrency: the source is single-threaded and so is the model.
