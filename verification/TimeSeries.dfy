/**
 The sorted series of the charts: `append` at any timestamp, `binarySearch`, and
 `dropOldData`.
*/
module TimeSeries {
  import opened Collections
  import opened JsNumbers

  datatype Point = Point(time: int, value: int)

  predicate Sorted(data: seq<Point>)
  {
    forall i, j :: 0 <= i < j < |data| ==> data[i].time < data[j].time
  }

  /** The finite map that a series stands for. */
  function Contents(data: seq<Point>): (m: map<int, int>)
  {
    if data == [] then map[]
    else Contents(data[..|data| - 1])[data[|data| - 1].time := data[|data| - 1].value]
  }

  lemma {:induction false} ContentsKeys(data: seq<Point>, t: int)
    ensures t in Contents(data) <==> exists i :: 0 <= i < |data| && data[i].time == t
  {
    if data != [] {
      var init := data[..|data| - 1];
      ContentsKeys(init, t);
      if t in Contents(init) {
        var i :| 0 <= i < |init| && init[i].time == t;
        assert data[i].time == t;
      }
    }
  }

  lemma {:induction false} ContentsAt(data: seq<Point>, i: nat)
    requires Sorted(data) && i < |data|
    ensures data[i].time in Contents(data) && Contents(data)[data[i].time] == data[i].value
  {
    if i < |data| - 1 {
      ContentsAt(data[..|data| - 1], i);
    }
  }

  lemma ContentsPoint(data: seq<Point>, t: int)
    requires Sorted(data) && t in Contents(data)
    ensures exists i :: 0 <= i < |data| && data[i].time == t && data[i].value == Contents(data)[t]
  {
    hide Contents, Sorted;
    ContentsKeys(data, t);
    var i :| 0 <= i < |data| && data[i].time == t;
    ContentsAt(data, i);
  }

  // Maps of sorted series are equal when they agree point by point.
  lemma ContentsIs(data: seq<Point>, m: map<int, int>)
    requires Sorted(data)
    requires forall i :: 0 <= i < |data| ==> data[i].time in m && m[data[i].time] == data[i].value
    requires forall t :: t in m ==> exists i :: 0 <= i < |data| && data[i].time == t
    ensures Contents(data) == m
  {
    var c := Contents(data);
    forall t | t in m ensures t in c && c[t] == m[t] {
      var i :| 0 <= i < |data| && data[i].time == t;
      ContentsAt(data, i);
    }
    forall t | t in c ensures t in m {
      ContentsKeys(data, t);
    }
    assert c.Keys == m.Keys;
  }

  /** How many points have a timestamp of at most t. */
  function CountUpTo(data: seq<Point>, t: int): nat
  {
    if data == [] then 0
    else CountUpTo(data[..|data| - 1], t) + if data[|data| - 1].time <= t then 1 else 0
  }

  lemma {:induction false} CountIsBoundary(data: seq<Point>, t: int, k: nat)
    requires k <= |data|
    requires forall i :: 0 <= i < k ==> data[i].time <= t
    requires forall i :: k <= i < |data| ==> data[i].time > t
    ensures CountUpTo(data, t) == k
  {
    if data != [] {
      CountIsBoundary(data[..|data| - 1], t, if k == |data| then k - 1 else k);
    }
  }

  /** On a sorted series the search counts the points up to the given time. */
  method BinarySearch(data: seq<Point>, value: int) returns (low: nat)
    requires Sorted(data) && |data| <= 0x4000_0000
    ensures low == CountUpTo(data, value)
  {
    low := 0;
    var high := |data|;
    while low < high
      invariant low <= high <= |data|
      invariant forall i :: 0 <= i < low ==> data[i].time <= value
      invariant forall i :: high <= i < |data| ==> data[i].time > value
    {
      var mid := JsShr(low + high, 1);
      assert mid == (low + high) / 2 by { assert Pow2(1) == 2; Small(low + high); }
      if value < data[mid].time {
        high := mid;
      } else {
        low := mid + 1;
      }
    }
    CountIsBoundary(data, value, low);
  }

  datatype Outcome = Done | TypeError

  class TimeSeries {
    var data: seq<Point>
    var maxValue: Option<int>
    var minValue: Option<int>

    ghost predicate Valid()
      reads this
    {
      Sorted(data)
    }

    constructor ()
      ensures Valid() && data == [] && maxValue == minValue == None
    {
      data := [];
      maxValue, minValue := None, None;
    }

    // The loop of `append`: the last point not after the given time, or -1.
    method Locate(timestamp: int) returns (i: int)
      requires Valid()
      ensures -1 <= i < |data| && (i >= 0 ==> data[i].time <= timestamp)
      ensures forall j :: 0 <= j < i ==> data[j].time < timestamp
      ensures forall j :: i < j < |data| ==> data[j].time > timestamp
    {
      i := |data| - 1;
      while i >= 0 && data[i].time > timestamp
        invariant -1 <= i < |data|
        invariant forall j :: i < j < |data| ==> data[j].time > timestamp
      {
        i := i - 1;
      }
    }

    /** Sets the value at a time, or adds to the one that is there. */
    method Append(timestamp: int, value: int, sumRepeatedTimeStampValues: bool)
      requires Valid()
      modifies this
      ensures Valid()
      ensures Contents(data) == Updated(old(Contents(data)), timestamp, value, sumRepeatedTimeStampValues)
      ensures !sumRepeatedTimeStampValues ==> Contents(data) == old(Contents(data))[timestamp := value]
      ensures sumRepeatedTimeStampValues ==>
                Contents(data) == if timestamp in old(Contents(data))
                                  then old(Contents(data))[timestamp := old(Contents(data))[timestamp] + value]
                                  else old(Contents(data))[timestamp := value]
      ensures timestamp in Contents(data)
              && exists i :: 0 <= i < |data| && data[i].time == timestamp && data[i].value == Contents(data)[timestamp]
      ensures maxValue
              == Some(if old(maxValue).None? || old(maxValue).value < value then value else old(maxValue).value)
      ensures minValue
              == Some(if old(minValue).None? || old(minValue).value > value then value else old(minValue).value)
    {
      hide Contents, Insert, Sorted;
      var i := Locate(timestamp);
      if i == -1 {
        InsertContents(data, 0, timestamp, value);
        InsertForms(data, 0, Point(timestamp, value));
        data := [Point(timestamp, value)] + data;
      } else if data[i].time == timestamp {
        var v := if sumRepeatedTimeStampValues then data[i].value + value else value;
        ContentsAt(data, i);
        ReplaceContents(data, i, v);
        data := data[i := Point(data[i].time, v)];
      } else if i < |data| - 1 {
        InsertContents(data, i + 1, timestamp, value);
        InsertForms(data, i + 1, Point(timestamp, value));
        data := data[..i + 1] + [Point(timestamp, value)] + data[i + 1..];
      } else {
        InsertContents(data, i + 1, timestamp, value);
        InsertForms(data, i + 1, Point(timestamp, value));
        data := data + [Point(timestamp, value)];
      }
      ContentsPoint(data, timestamp);
      maxValue := Some(if maxValue.None? || maxValue.value < value then value else maxValue.value);
      minValue := Some(if minValue.None? || minValue.value > value then value else minValue.value);
    }

    /**
     Appending at the time NaN, which is not after, before or at any other: the point goes to
     the end, and no later append gets past it. `rest` is the series behind that point.
    */
    method Break(value: int) returns (rest: TimeSeries)
      ensures fresh(rest) && rest.Valid() && rest.data == []
      ensures rest.maxValue == Some(if maxValue.None? || maxValue.value < value then value else maxValue.value)
      ensures rest.minValue == Some(if minValue.None? || minValue.value > value then value else minValue.value)
    {
      rest := new TimeSeries();
      rest.maxValue := Some(if maxValue.None? || maxValue.value < value then value else maxValue.value);
      rest.minValue := Some(if minValue.None? || minValue.value > value then value else minValue.value);
    }

    /**
     Drops old points from the front. With a bound of at least 2 it never reads past the
     end; below that it does, exactly when every point but the first is old.
    */
    method DropOldData(oldestValidTime: int, maxDataSetLength: int) returns (outcome: Outcome, ghost k: nat)
      requires Valid()
      modifies this`data
      ensures Valid()
      ensures outcome == TypeError <==> maxDataSetLength <= 1 && |old(data)| >= maxDataSetLength
                                        && forall j :: 1 <= j < |old(data)| ==> old(data)[j].time < oldestValidTime
      ensures outcome == TypeError ==> data == old(data)
      ensures outcome == Done ==>
              k <= |old(data)| && data == old(data)[k..] && Dropped(old(data), k, oldestValidTime, maxDataSetLength)
      ensures outcome == Done ==> |data| < maxDataSetLength || (|data| > 1 && data[1].time >= oldestValidTime)
      ensures data != old(data) ==> data != [] && data[0].time < oldestValidTime && |data| >= maxDataSetLength - 1
    {
      var removeCount, lsd := 0, |data|;
      while lsd - removeCount >= maxDataSetLength
        invariant 0 <= removeCount <= |data|
        invariant removeCount > 0 ==> removeCount < |data| && lsd - removeCount >= maxDataSetLength - 1
        invariant forall j :: 1 <= j <= removeCount ==> j < |data| && data[j].time < oldestValidTime
        decreases lsd - removeCount
      {
        if removeCount + 1 >= |data| { return TypeError, 0; }
        if data[removeCount + 1].time >= oldestValidTime { break; }
        removeCount := removeCount + 1;
      }
      k := removeCount;
      if removeCount != 0 {
        data := data[removeCount..];
      }
      return Done, k;
    }
  }

  // The k points dropped, and why neither more nor fewer: a point goes only when the one
  // behind it is still before the window, and only while the series is too long.
  ghost predicate Dropped(was: seq<Point>, k: nat, oldest: int, bound: int)
    requires k <= |was|
  {
    (forall j :: 0 < j <= k && j < |was| ==> was[j].time < oldest)
    && (k > 0 ==> k < |was| && |was| - k >= bound - 1)
    && (|was| - k < bound || (k + 1 < |was| && was[k + 1].time >= oldest))
  }

  predicate NewestBefore(data: seq<Point>, i: nat, oldest: int)
    requires i < |data|
  {
    data[i].time < oldest && forall j :: i < j < |data| ==> data[j].time >= oldest
  }

  /** What is dropped is neither in the window nor the newest point before it. */
  lemma DropKeepsWindow(was: seq<Point>, k: nat, oldest: int, bound: int)
    requires Sorted(was) && k <= |was| && Dropped(was, k, oldest, bound)
    ensures forall i :: 0 <= i < |was| && was[i].time >= oldest ==> i >= k
    ensures forall i :: 0 <= i < |was| && NewestBefore(was, i, oldest) ==> i >= k
  {
    if k > 0 { assert was[k].time < oldest; }
  }

  // What one append does to the map: replace, or add when summing.
  function Updated(m: map<int, int>, t: int, v: int, sum: bool): map<int, int>
  {
    m[t := if sum && t in m then m[t] + v else v]
  }

  lemma InsertForms(data: seq<Point>, k: nat, p: Point)
    requires k <= |data|
    ensures Insert(data, k, p) == data[..k] + [p] + data[k..]
    ensures k == 0 ==> Insert(data, k, p) == [p] + data
    ensures k == |data| ==> Insert(data, k, p) == data + [p]
  {
  }

  function Insert(data: seq<Point>, k: nat, p: Point): (d: seq<Point>)
    requires k <= |data|
    ensures |d| == |data| + 1 && d[k] == p
    ensures forall i :: 0 <= i < k ==> d[i] == data[i]
    ensures forall i :: k < i < |d| ==> d[i] == data[i - 1]
  {
    data[..k] + [p] + data[k..]
  }

  lemma InsertSorted(data: seq<Point>, k: nat, t: int, v: int)
    requires Sorted(data) && k <= |data|
    requires forall i :: 0 <= i < k ==> data[i].time < t
    requires forall i :: k <= i < |data| ==> data[i].time > t
    ensures Sorted(Insert(data, k, Point(t, v)))
  {
    hide Insert;
  }

  lemma InsertContents(data: seq<Point>, k: nat, t: int, v: int)
    requires Sorted(data) && k <= |data|
    requires forall i :: 0 <= i < k ==> data[i].time < t
    requires forall i :: k <= i < |data| ==> data[i].time > t
    ensures var d := Insert(data, k, Point(t, v));
            Sorted(d) && t !in Contents(data) && Contents(d) == Contents(data)[t := v]
  {
    hide Contents, Insert, Sorted;
    var d, m := Insert(data, k, Point(t, v)), Contents(data)[t := v];
    InsertSorted(data, k, t, v);
    ContentsKeys(data, t);
    forall i | 0 <= i < |d| ensures d[i].time in m && m[d[i].time] == d[i].value {
      if i < k { ContentsAt(data, i); } else if i > k { ContentsAt(data, i - 1); }
    }
    forall u | u in m ensures exists i :: 0 <= i < |d| && d[i].time == u {
      if u == t {
        assert d[k].time == t;
      } else {
        ContentsKeys(data, u);
        var i :| 0 <= i < |data| && data[i].time == u;
        assert d[if i < k then i else i + 1].time == u;
      }
    }
    ContentsIs(d, m);
  }

  lemma ReplaceContents(data: seq<Point>, k: nat, v: int)
    requires Sorted(data) && k < |data|
    ensures var d := data[k := Point(data[k].time, v)];
            Sorted(d) && Contents(d) == Contents(data)[data[k].time := v]
  {
    var t := data[k].time;
    var d, m := data[k := Point(t, v)], Contents(data)[t := v];
    forall i | 0 <= i < |d| ensures d[i].time in m && m[d[i].time] == d[i].value {
      ContentsAt(data, i);
    }
    forall u | u in m ensures exists i :: 0 <= i < |d| && d[i].time == u {
      if u == t {
        assert d[k].time == t;
      } else {
        ContentsKeys(data, u);
        var i :| 0 <= i < |data| && data[i].time == u;
        assert d[i].time == u;
      }
    }
    ContentsIs(d, m);
  }
}
