/**
 `boxTimeSeries.checkBounds`: one backward scan for the extrema of the whole series and
 of the part that the chart shows.
*/
module Chart {
  import opened Collections
  import opened TimeSeries

  // The shown part: the points inside the window, and the newest point wherever it is.
  predicate Shown(data: seq<Point>, i: nat, oldest: int)
    requires i < |data|
  {
    data[i].time >= oldest || i == |data| - 1
  }

  ghost predicate IsMaximum(data: seq<Point>, from: nat, oldest: int, shownOnly: bool, m: Option<int>)
  {
    m.Some?
    && (exists i :: from <= i < |data| && (shownOnly ==> Shown(data, i, oldest)) && data[i].value == m.value)
    && (forall i :: from <= i < |data| && (shownOnly ==> Shown(data, i, oldest)) ==> data[i].value <= m.value)
  }

  ghost predicate IsMinimum(data: seq<Point>, from: nat, oldest: int, shownOnly: bool, m: Option<int>)
  {
    m.Some?
    && (exists i :: from <= i < |data| && (shownOnly ==> Shown(data, i, oldest)) && data[i].value == m.value)
    && (forall i :: from <= i < |data| && (shownOnly ==> Shown(data, i, oldest)) ==> data[i].value >= m.value)
  }

  datatype Bounds = Bounds(maxValue: Option<int>, minValue: Option<int>)

  class BoxTimeSeries {
    var data: seq<Point>
    var maxValue: Option<int>   // None stands for NaN
    var minValue: Option<int>

    constructor (data: seq<Point>)
      ensures this.data == data
    {
      this.data := data;
      maxValue, minValue := None, None;
    }

    /** The exact extrema, globally and of the shown part. */
    method CheckBounds(oldestValidTime: int) returns (frameBounds: Bounds)
      requires Sorted(data)
      modifies this`maxValue, this`minValue
      ensures data == [] ==> maxValue == minValue == None && frameBounds == Bounds(None, None)
      ensures data != [] ==> IsMaximum(data, 0, oldestValidTime, false, maxValue)
                             && IsMinimum(data, 0, oldestValidTime, false, minValue)
      ensures data != [] ==> IsMaximum(data, 0, oldestValidTime, true, frameBounds.maxValue)
                             && IsMinimum(data, 0, oldestValidTime, true, frameBounds.minValue)
      ensures data != [] ==>
                maxValue.Some? && minValue.Some? && frameBounds.maxValue.Some? && frameBounds.minValue.Some?
      ensures forall i :: 0 <= i < |data| ==> minValue.value <= data[i].value <= maxValue.value
      ensures forall i :: 0 <= i < |data| && (data[i].time >= oldestValidTime || i == |data| - 1) ==>
                frameBounds.minValue.value <= data[i].value <= frameBounds.maxValue.value
      ensures data != [] ==>
                exists i, j :: 0 <= i < |data| && 0 <= j < |data|
                  && (data[i].time >= oldestValidTime || i == |data| - 1) && data[i].value == frameBounds.maxValue.value
                  && (data[j].time >= oldestValidTime || j == |data| - 1) && data[j].value == frameBounds.minValue.value
    {
      hide IsMaximum, IsMinimum;
      var i := |data|;
      frameBounds := Bounds(None, None);
      if i != 0 {
        i := i - 1;
        maxValue, minValue := Some(data[i].value), Some(data[i].value);
        frameBounds := Bounds(maxValue, minValue);
        NewestAlone(data, oldestValidTime, false);
        NewestAlone(data, oldestValidTime, true);
        while i > 0
          invariant 0 <= i < |data|
          invariant maxValue.Some? && minValue.Some? && frameBounds.maxValue.Some? && frameBounds.minValue.Some?
          invariant IsMaximum(data, i, oldestValidTime, false, maxValue)
          invariant IsMinimum(data, i, oldestValidTime, false, minValue)
          invariant IsMaximum(data, i, oldestValidTime, true, frameBounds.maxValue)
          invariant IsMinimum(data, i, oldestValidTime, true, frameBounds.minValue)
          invariant Shown(data, i, oldestValidTime) ==> frameBounds == Bounds(maxValue, minValue)
        {
          i := i - 1;
          var value := data[i].value;
          ghost var wasMax, wasMin, was := maxValue, minValue, frameBounds;
          if value > maxValue.value {
            maxValue := Some(value);
            if data[i].time >= oldestValidTime {
              frameBounds := frameBounds.(maxValue := Some(value));
            }
          }
          if value < minValue.value {
            minValue := Some(value);
            if data[i].time >= oldestValidTime {
              frameBounds := frameBounds.(minValue := Some(value));
            }
          }
          assert data[i].time >= oldestValidTime ==> Shown(data, i + 1, oldestValidTime);
          MaximumDown(data, i, oldestValidTime, false, wasMax);
          MinimumDown(data, i, oldestValidTime, false, wasMin);
          MaximumDown(data, i, oldestValidTime, true, was.maxValue);
          MinimumDown(data, i, oldestValidTime, true, was.minValue);
        }
        BoundsAre(data, oldestValidTime, maxValue, minValue, frameBounds);
      } else {
        maxValue, minValue := None, None;
      }
    }
  }

  // What the extrema mean for each point.
  lemma BoundsAre(data: seq<Point>, oldest: int, maxValue: Option<int>, minValue: Option<int>, frame: Bounds)
    requires IsMaximum(data, 0, oldest, false, maxValue) && IsMinimum(data, 0, oldest, false, minValue)
    requires IsMaximum(data, 0, oldest, true, frame.maxValue) && IsMinimum(data, 0, oldest, true, frame.minValue)
    ensures maxValue.Some? && minValue.Some? && frame.maxValue.Some? && frame.minValue.Some?
    ensures forall i :: 0 <= i < |data| ==> minValue.value <= data[i].value <= maxValue.value
    ensures forall i :: 0 <= i < |data| && (data[i].time >= oldest || i == |data| - 1) ==>
              frame.minValue.value <= data[i].value <= frame.maxValue.value
    ensures exists i, j :: 0 <= i < |data| && 0 <= j < |data|
              && (data[i].time >= oldest || i == |data| - 1) && data[i].value == frame.maxValue.value
              && (data[j].time >= oldest || j == |data| - 1) && data[j].value == frame.minValue.value
  {
    var i :| 0 <= i < |data| && Shown(data, i, oldest) && data[i].value == frame.maxValue.value;
    var j :| 0 <= j < |data| && Shown(data, j, oldest) && data[j].value == frame.minValue.value;
  }

  lemma NewestAlone(data: seq<Point>, oldest: int, shownOnly: bool)
    requires data != []
    ensures IsMaximum(data, |data| - 1, oldest, shownOnly, Some(data[|data| - 1].value))
    ensures IsMinimum(data, |data| - 1, oldest, shownOnly, Some(data[|data| - 1].value))
  {
  }

  // The extremum with one more point in front.

  lemma MaximumDown(data: seq<Point>, i: nat, oldest: int, shownOnly: bool, m: Option<int>)
    requires i + 1 < |data| && IsMaximum(data, i + 1, oldest, shownOnly, m)
    ensures var p := data[i];
            IsMaximum(data, i, oldest, shownOnly,
                      if (shownOnly ==> p.time >= oldest) && p.value > m.value then Some(p.value) else m)
  {
  }

  lemma MinimumDown(data: seq<Point>, i: nat, oldest: int, shownOnly: bool, m: Option<int>)
    requires i + 1 < |data| && IsMinimum(data, i + 1, oldest, shownOnly, m)
    ensures var p := data[i];
            IsMinimum(data, i, oldest, shownOnly,
                      if (shownOnly ==> p.time >= oldest) && p.value < m.value then Some(p.value) else m)
  {
  }
}
