/** The option list, selected index and inner-bar geometry of a slider widget. */
module Slider {
  import opened Common
  import opened Coordinates

  /** C++ `int(x)` for a float: truncation toward zero. */
  function Trunc(x: real): (r: int)
    ensures x >= 0.0 ==> r as real <= x < r as real + 1.0
    ensures x < 0.0 ==> r as real - 1.0 < x <= r as real
  {
    if x >= 0.0 then x.Floor else -((-x).Floor)
  }

  /** The distance the inner bar travels per option: `int(width) / max(count, 1)`. */
  function StepValue(width: real, count: nat): (r: int)
    ensures count <= 1 ==> r == Trunc(width)
    ensures count > 1 && width >= 0.0 ==> 0 <= r * count <= Trunc(width) < (r + 1) * count
  {
    var divisor := if count > 1 then count else 1;
    CDivModNonNegativeIfPositive(Trunc(width), divisor);
    CDiv(Trunc(width), divisor)
  }

  lemma CDivModNonNegativeIfPositive(a: int, b: int)
    requires b > 0
    ensures a >= 0 ==> 0 <= CDiv(a, b) * b <= a < (CDiv(a, b) + 1) * b
  {
    if a >= 0 {
      CDivModNonNegative(a, b);
      var q, r := a / b, a % b;
      assert q * b + r == a && 0 <= r < b;
      CoordsInRow(a, b);
      assert q >= 0;
      assert 0 <= q * b;
      assert (q + 1) * b == q * b + b;
    }
  }

  /** One (value, label) entry of the slider. */
  datatype SliderPair<V> = SliderPair(value: V, text: string)

  class Slider<V> {
    var options: seq<SliderPair<V>>
    var selected: nat
    const titleStr: string
    var title: string
    var outerX: real
    var outerWidth: real
    var innerX: real
    var innerWidth: real

    /** A selected index is in range once the slider has options; `select` itself checks no bound. */
    predicate Valid()
      reads this
    {
      options == [] || selected < |options|
    }

    constructor (width: real, x: real, titleStr: string)
      ensures Valid()
      ensures options == [] && selected == 0 && this.titleStr == titleStr && title == titleStr
      ensures outerWidth == width && innerWidth == width && outerX == x && innerX == x
    {
      options := [];
      selected := 0;
      this.titleStr := titleStr;
      title := titleStr;
      outerX, outerWidth := x, width;
      innerX, innerWidth := x, width;
    }

    function GetStepValue(): (r: int)
      reads this
      ensures r == StepValue(outerWidth, |options|)
    {
      StepValue(outerWidth, |options|)
    }

    /** The selected value, or None (a null pointer) for a slider without options. */
    function GetSelected(): (r: Option<V>)
      reads this
      requires Valid()
      ensures r.None? <==> options == []
      ensures r.Some? ==> r.value == options[selected].value
    {
      if options == [] then None else Some(options[selected].value)
    }

    /** Selects option `i`: snaps the inner bar to its step and relabels the title. */
    method Select(i: nat)
      requires options == [] || i < |options|
      modifies this`selected, this`innerX, this`title
      ensures Valid() && selected == i
      ensures innerX == outerX + (StepValue(outerWidth, |options|) * i) as real
      ensures title == if |options| >= 1 then titleStr + " " + options[i].text else old(title)
    {
      selected := i;
      innerX := outerX + (GetStepValue() * selected) as real;
      if |options| >= 1 {
        title := titleStr + " " + options[selected].text;
      }
    }

    /** Appends one option, resizes the inner bar to one share of the width and reselects. */
    method AddValue(val: V, text: string, select: bool)
      requires Valid() && (select || selected <= |options|)
      modifies this`options, this`innerWidth, this`selected, this`innerX, this`title
      ensures Valid()
      ensures options == old(options) + [SliderPair(val, text)]
      ensures innerWidth == outerWidth / |options| as real
      ensures selected == if select then |options| - 1 else old(selected)
      ensures innerX == outerX + (StepValue(outerWidth, |options|) * selected) as real
      ensures title == titleStr + " " + options[selected].text
    {
      options := options + [SliderPair(val, text)];
      innerWidth := outerWidth / |options| as real;
      if select {
        Select(|options| - 1);
      } else {
        Select(selected);
      }
    }
  }
}
