/**
 The history charts of an Onionoo document: decoding, the cache in front of it, and the
 bandwidth and weight readers. The cache knows the name of a chart but not the factor
 it was decoded with.
*/
module Onionoo {
  import opened Collections
  import Timestamps

  // A time stamp: a text, or an integer in seconds, as the floating point repair leaves it.
  datatype Stamp = Text(text: string) | Number(seconds: int)

  // One graph object of a document; the protocol promises all fields.
  datatype Graph = Graph(values: Option<seq<Option<real>>>, count: Option<int>, interval: Option<int>,
                         factor: Option<real>, first: Option<Stamp>)

  // The same with its time stamp in seconds.
  datatype History = History(first: int, interval: int, count: int, factor: real, values: seq<Option<real>>)

  // The data of one relay or bridge: its graphs by chart name and period.
  type Object = map<string, map<string, Graph>>

  datatype Data = Data(relays: Option<seq<Object>>, bridges: Option<seq<Object>>)

  datatype Point = Point(ms: int, value: Option<real>)

  // Series by period, or by the short name of the period.
  type SeriesMap = map<string, seq<Point>>

  // What Python raises.
  datatype Error = KeyError | IndexError | ValueError

  datatype Decoded = Series(points: seq<Point>) | Missing | Raises(error: Error)

  datatype Opened = Opened(history: History) | Unreadable(error: Error)

  const KEYS: seq<string> := ["5_years", "1_year", "6_months", "3_months", "1_month", "1_week", "3_days"]

  function ResultKey(key: string): string
  {
    if key == "5_years" then "y5" else if key == "1_year" then "y1" else if key == "6_months" then "m6"
    else if key == "3_months" then "m3" else if key == "1_month" then "m1" else if key == "1_week" then "w1" else "d3"
  }

  // ---- decoding

  function Scaled(value: Option<real>, factor: real, scale: real): Option<real>
  {
    if value.None? then None else Some(Product(value.value, factor, scale))
  }

  function Product(value: real, factor: real, scale: real): real { value * factor * scale }

  /** Point i of a history; the one after the last value closes the series with zero. */
  function PointAt(h: History, scale: real, i: nat): Point
    requires i <= |h.values|
  {
    Point((h.first + i * h.interval) * 1000,
          if i < h.count then if i < |h.values| then Scaled(h.values[i], h.factor, scale) else None else Some(0.0))
  }

  function Length(h: History): nat { if h.count < 0 then 0 else h.count }

  function Decoding(h: History, scale: real): Decoded
  {
    if h.count > |h.values| then Raises(IndexError)
    else Series(seq(Length(h) + 1, i requires 0 <= i <= Length(h) => PointAt(h, scale, i)))
  }

  function StampSeconds(stamp: Stamp): Option<int>
  {
    match stamp
    case Text(text) => Timestamps.Parsed(text)
    case Number(seconds) => Some(seconds)
  }

  // The fields of a graph object, and its time stamp; a missing field is noticed before a bad stamp.
  function Open(g: Graph): Opened
  {
    if g.values.None? || g.count.None? || g.interval.None? || g.factor.None? || g.first.None? then Unreadable(KeyError)
    else
      match StampSeconds(g.first.value)
      case None => Unreadable(ValueError)
      case Some(first) => Opened(History(first, g.interval.value, g.count.value, g.factor.value, g.values.value))
  }

  function GraphOf(node: Option<Object>, chart: string, key: string): Option<Graph>
  {
    if node.Some? && chart in node.value && key in node.value[chart] then Some(node.value[chart][key]) else None
  }

  // What decoding gives for a chart and a period.
  function Decode(node: Option<Object>, chart: string, key: string, scale: real): Decoded
  {
    var g := GraphOf(node, chart, key);
    if g.None? then Missing
    else
      match Open(g.value)
      case Unreadable(error) => Raises(error)
      case Opened(h) => Decoding(h, scale)
  }

  /**
   Decoding gives a series exactly when all fields are there, the time stamp can be read and
   there are at least as many values as counted.
  */
  lemma DecodesIff(node: Option<Object>, chart: string, key: string, scale: real)
    ensures Decode(node, chart, key, scale).Series?
            <==> var g := GraphOf(node, chart, key);
                 g.Some?
                 && g.value.values.Some? && g.value.count.Some? && g.value.interval.Some? && g.value.factor.Some?
                 && g.value.first.Some?
                 && StampSeconds(g.value.first.value).Some? && g.value.count.value <= |g.value.values.value|
  {
  }

  /** Why there is no series, for each reason. */
  lemma FailsBecause(node: Option<Object>, chart: string, key: string, scale: real)
    ensures var d := Decode(node, chart, key, scale);
            if node.None? || chart !in node.value || key !in node.value[chart] then d == Missing
            else
              var g := node.value[chart][key];
              if g.values.None? || g.count.None? || g.interval.None? || g.factor.None? || g.first.None?
              then d == Raises(KeyError)
              else if g.first.value.Text? && Timestamps.Parsed(g.first.value.text).None? then d == Raises(ValueError)
              else if g.count.value > |g.values.value| then d == Raises(IndexError)
              else d.Series?
  {
  }

  /** A text as Onionoo writes it is the start of the series, to the second. */
  lemma FirstPoint(node: Option<Object>, chart: string, key: string, scale: real,
                   year: nat, month: nat, day: nat, hour: nat, minute: nat, second: nat)
    requires Timestamps.IsDate(year, month, day) && year <= 9999 && hour < 24 && minute < 60 && second < 60
    requires Decode(node, chart, key, scale).Series?
    requires GraphOf(node, chart, key).value.first
             == Some(Text(Timestamps.Written(year, month, day, hour, minute, second)))
    ensures var d := Decode(node, chart, key, scale);
            |d.points| > 0
            && d.points[0].ms
               == (((Timestamps.DayNumber(year, month, day) * 24 + hour) * 60 + minute) * 60 + second) * 1000
  {
    hide Timestamps.Parsed, Timestamps.Written, Timestamps.DayNumber;
    Timestamps.StampIsRead(year, month, day, hour, minute, second);
    var h := Open(GraphOf(node, chart, key).value).history;
    assert Decode(node, chart, key, scale).points[0] == PointAt(h, scale, 0);
  }

  /**
   A decoded series has one point more than the history has values, the interval apart;
   unknown values stay unknown.
  */
  lemma SeriesPoints(h: History, scale: real)
    requires 0 <= h.count <= |h.values|
    ensures var d := Decoding(h, scale);
            d.Series? && |d.points| == h.count + 1
            && d.points[0].ms == h.first * 1000
            && d.points[h.count].value == Some(0.0)
            && (forall i :: 0 <= i < h.count ==>
                  d.points[i + 1].ms - d.points[i].ms == h.interval * 1000
                  && (d.points[i].value.None? <==> h.values[i].None?)
                  && d.points[i].value == Scaled(h.values[i], h.factor, scale))
  {
    var d := Decoding(h, scale);
    assert d.points[0] == PointAt(h, scale, 0) && d.points[h.count] == PointAt(h, scale, h.count);
    forall i | 0 <= i < h.count
      ensures d.points[i + 1].ms - d.points[i].ms == h.interval * 1000
              && d.points[i].value == Scaled(h.values[i], h.factor, scale)
    {
      assert d.points[i] == PointAt(h, scale, i) && d.points[i + 1] == PointAt(h, scale, i + 1);
      assert (i + 1) * h.interval == i * h.interval + h.interval;
    }
  }

  /** A known value is multiplied by the history's factor and by the scale. */
  lemma SeriesValue(h: History, scale: real, i: nat, v: real)
    requires i < h.count <= |h.values| && h.values[i] == Some(v)
    ensures var d := Decoding(h, scale);
            d.Series? && |d.points| == h.count + 1
            && d.points[i].value.Some? && d.points[i].value.value == v * h.factor * scale
  {
    assert Decoding(h, scale).points[i] == PointAt(h, scale, i);
    ProductOf(v, h.factor, scale);
  }

  lemma ProductOf(v: real, factor: real, scale: real)
    ensures Product(v, factor, scale) == v * factor * scale
  {
  }

  // ---- charts

  datatype Chart = Charts(series: SeriesMap) | Nothing | Fails(error: Error)

  datatype Gathered = Found(series: SeriesMap) | Failed(error: Error)

  function Fetch(node: Option<Object>, chart: string, cached: SeriesMap, key: string, scale: real): Decoded
  {
    if key in cached then Series(cached[key]) else Decode(node, chart, key, scale)
  }

  // The series for a list of periods, or the first failure.
  function Gather(node: Option<Object>, chart: string, cached: SeriesMap, keys: seq<string>, scale: real)
    : Gathered
  {
    if keys == [] then Found(map[])
    else
      var key := keys[|keys| - 1];
      var before, d := Gather(node, chart, cached, keys[..|keys| - 1], scale), Fetch(node, chart, cached, key, scale);
      if before.Failed? || d.Missing? then before
      else if d.Raises? then Failed(d.error)
      else Found(before.series[ResultKey(key) := d.points])
  }

  function Answer(node: Option<Object>, chart: string, cached: SeriesMap, period: Option<string>, scale: real): Chart
  {
    if period.Some? && period.value !in KEYS then Fails(KeyError)
    else
      match Gather(node, chart, cached, if period.Some? then [period.value] else KEYS, scale)
      case Failed(error) => Fails(error)
      case Found(series) => if series == map[] then Nothing else Charts(series)
  }

  /** The chart as decoding alone gives it. */
  function Uncached(node: Option<Object>, chart: string, period: Option<string>, scale: real): Chart
  {
    Answer(node, chart, map[], period, scale)
  }

  // The scale that the readers use for a chart.
  function ScaleOf(chart: string): real { if chart == "read_history" then -1.0 else 1.0 }

  // Every cached series of a chart is what decoding gives with this scale.
  ghost predicate Honest(node: Option<Object>, chart: string, cached: SeriesMap, scale: real)
  {
    forall key :: key in cached ==> Decode(node, chart, key, scale) == Series(cached[key])
  }

  lemma {:induction false} GatherHonest(node: Option<Object>, chart: string, cached: SeriesMap, keys: seq<string>,
                                        scale: real)
    requires Honest(node, chart, cached, scale)
    ensures Gather(node, chart, cached, keys, scale) == Gather(node, chart, map[], keys, scale)
  {
    if keys != [] { GatherHonest(node, chart, cached, keys[..|keys| - 1], scale); }
  }

  function CachedFor(cache: map<string, SeriesMap>, chart: string): SeriesMap
  {
    if chart in cache then cache[chart] else map[]
  }

  class Document {
    var objectData: Option<Object>
    var isRelay: bool
    var isBridge: bool
    var cache: map<string, SeriesMap>

    /** Every cached series is what decoding gives with the scale that is used for its chart. */
    ghost predicate Valid()
      reads this
    {
      forall chart :: chart in cache ==> Honest(objectData, chart, cache[chart], ScaleOf(chart))
    }

    constructor ()
      ensures Valid() && objectData == None && !isRelay && !isBridge
    {
      objectData, isRelay, isBridge, cache := None, false, false, map[];
    }

    /** New data empties the cache; data for a relay and for a bridge at once count as no data. */
    method Update(data: Option<Data>)
      modifies this
      ensures Valid() && cache == map[]
      ensures objectData == if data.None? then None else TheObject(data.value)
      ensures isRelay == (old(isRelay)
                          || (data.Some? && FirstOf(data.value.relays).Some? && FirstOf(data.value.bridges).None?))
      ensures isBridge == (old(isBridge)
                           || (data.Some? && FirstOf(data.value.relays).None? && FirstOf(data.value.bridges).Some?))
      ensures data.Some? && data.value.relays.Some? && data.value.relays.value != [] ==>
                objectData == if data.value.bridges.Some? && data.value.bridges.value != [] then None
                              else Some(data.value.relays.value[0])
      ensures data.Some? && data.value.bridges.Some? && data.value.bridges.value != []
              && (data.value.relays.None? || data.value.relays.value == []) ==>
                objectData == Some(data.value.bridges.value[0])
      decreases data.Some?
    {
      objectData, cache := None, map[];
      if data.None? { return; }
      var rlys, brdgs := FirstOf(data.value.relays), FirstOf(data.value.bridges);
      if rlys.Some? && brdgs.Some? {
        Update(None);
        return;
      } else if rlys.Some? {
        isRelay := true;
        objectData := rlys;
      } else if brdgs.Some? {
        isBridge := true;
        objectData := brdgs;
      }
    }

    /** The series of a graph object, or why there is none. */
    method DecodeHistoryObject(chart: string, key: string, scale: real) returns (r: Decoded)
      ensures r == Decode(objectData, chart, key, scale)
    {
      var found := GraphOf(objectData, chart, key);
      if found.None? { return Missing; }
      var go := found.value;
      if go.values.None? || go.count.None? || go.interval.None? || go.factor.None? || go.first.None? {
        return Raises(KeyError);
      }
      var first := StampSeconds(go.first.value);
      if first.None? { return Raises(ValueError); }
      var h := History(first.value, go.interval.value, go.count.value, go.factor.value, go.values.value);
      var result: seq<Point> := [];
      var dataIndex, dataTimestamp := 0, h.first;
      while dataIndex < h.count
        invariant 0 <= dataIndex <= Length(h) && dataIndex <= |h.values|
        invariant dataTimestamp == h.first + dataIndex * h.interval
        invariant |result| == dataIndex && forall i :: 0 <= i < dataIndex ==> result[i] == PointAt(h, scale, i)
      {
        if dataIndex >= |h.values| { return Raises(IndexError); }
        result := result + [Point(dataTimestamp * 1000, Scaled(h.values[dataIndex], h.factor, scale))];
        assert (dataIndex + 1) * h.interval == dataIndex * h.interval + h.interval;
        dataIndex := dataIndex + 1;
        dataTimestamp := dataTimestamp + h.interval;
      }
      result := result + [Point(dataTimestamp * 1000, Some(0.0))];
      return Series(result);
    }

    /**
     `get_chart` for any scale: what is cached is taken as it is, what is not is decoded and
     kept. A series that fails ends the call; what a known chart has got by then stays.
    */
    method GetChart(chart: string, period: Option<string>, scale: real) returns (r: Chart)
      modifies this`cache
      ensures r == Answer(objectData, chart, CachedFor(old(cache), chart), period, scale)
      ensures cache - {chart} == old(cache) - {chart}
      ensures Kept(CachedFor(old(cache), chart), CachedFor(cache, chart))
      ensures forall key :: key in CachedFor(cache, chart) && key !in CachedFor(old(cache), chart) ==>
                Decode(objectData, chart, key, scale) == Series(cache[chart][key])
      ensures (r.Charts? || r.Nothing?) ==> chart in cache && forall key ::
                (if period.Some? then key == period.value else key in KEYS)
                && Decode(objectData, chart, key, scale).Series? ==>
                key in cache[chart]
      ensures r.Fails? && chart !in old(cache) ==> cache == old(cache)
      ensures r.Fails? && chart in old(cache) && period.None? ==>
                StoppedAt(objectData, chart, CachedFor(old(cache), chart), CachedFor(cache, chart), scale)
    {
      hide Decode, ResultKey, Gather, StoppedAt;
      var cached := CachedFor(cache, chart);
      ghost var before := cached;
      var keys := KEYS;
      if period.Some? {
        if period.value !in keys { return Fails(KeyError); }
        keys := [period.value];
      }
      var result: SeriesMap := map[];
      var i := 0;
      NoneGathered(objectData, chart, before, keys, scale);
      while i < |keys|
        invariant 0 <= i <= |keys| && cache == old(cache)
        invariant Gather(objectData, chart, before, keys[..i], scale) == Found(result)
        invariant Fetched(objectData, chart, before, cached, scale)
        invariant forall key :: key in keys[..i] && Decode(objectData, chart, key, scale).Series? ==> key in cached
      {
        var key := keys[i];
        GatherNext(objectData, chart, before, keys, i, scale);
        var histObj: Decoded;
        if key in cached {
          histObj := Series(cached[key]);
        } else {
          histObj := DecodeHistoryObject(chart, key, scale);
          if histObj.Raises? {
            GatherFails(objectData, chart, before, keys, i, scale);
            if period.None? { Stopped(objectData, chart, before, cached, i, scale); }
            if chart in cache {
              OneUpdated(cache, chart, cached);
              cache := cache[chart := cached];
            }
            return Fails(histObj.error);
          }
          if histObj.Series? {
            cached := cached[key := histObj.points];
          }
        }
        if histObj.Series? {
          result := result[ResultKey(key) := histObj.points];
        }
        i := i + 1;
      }
      assert keys[..|keys|] == keys;
      OneUpdated(cache, chart, cached);
      cache := cache[chart := cached];
      if result == map[] { return Nothing; }
      return Charts(result);
    }

    /** With the scale of its chart, a read through the cache gives what decoding gives. */
    method ReadChart(chart: string, period: Option<string>, scale: real) returns (r: Chart)
      requires Valid() && scale == ScaleOf(chart)
      modifies this`cache
      ensures Valid() && r == Uncached(objectData, chart, period, scale)
    {
      hide Gather, Decode;
      ghost var before := cache;
      assert Honest(objectData, chart, CachedFor(before, chart), scale);
      AnswerHonest(objectData, chart, CachedFor(before, chart), period, scale);
      r := GetChart(chart, period, scale);
      forall c | c in cache ensures Honest(objectData, c, cache[c], ScaleOf(c)) {
        if c != chart { assert c in cache - {chart} && c in before - {chart}; }
      }
    }
  }

  lemma OneUpdated<K, V>(m: map<K, V>, k: K, v: V)
    ensures m[k := v] - {k} == m - {k}
  {
  }

  function FirstOf(objects: Option<seq<Object>>): Option<Object>
  {
    if objects.Some? && objects.value != [] then Some(objects.value[0]) else None
  }

  function TheObject(data: Data): Option<Object>
  {
    var rlys, brdgs := FirstOf(data.relays), FirstOf(data.bridges);
    if rlys.Some? && brdgs.Some? then None else if rlys.Some? then rlys else brdgs
  }

  ghost predicate Kept(before: SeriesMap, after: SeriesMap)
  {
    forall key :: key in before ==> key in after && after[key] == before[key]
  }

  // What has come into a chart's cache has been decoded.
  ghost predicate Fetched(node: Option<Object>, chart: string, before: SeriesMap, after: SeriesMap, scale: real)
  {
    Kept(before, after)
    && forall key :: key in after && key !in before ==> Decode(node, chart, key, scale) == Series(after[key])
  }

  // The series in front of the first that failed have been kept.
  ghost predicate StoppedAt(node: Option<Object>, chart: string, before: SeriesMap, after: SeriesMap, scale: real)
  {
    exists i :: 0 <= i < |KEYS| && Fetch(node, chart, before, KEYS[i], scale).Raises?
                && forall key :: key in KEYS[..i] && Decode(node, chart, key, scale).Series? ==> key in after
  }

  lemma Stopped(node: Option<Object>, chart: string, before: SeriesMap, after: SeriesMap, i: nat, scale: real)
    requires i < |KEYS| && Fetch(node, chart, before, KEYS[i], scale).Raises?
    requires forall key :: key in KEYS[..i] && Decode(node, chart, key, scale).Series? ==> key in after
    ensures StoppedAt(node, chart, before, after, scale)
  {
    hide KEYS, Decode;
  }

  lemma AnswerHonest(node: Option<Object>, chart: string, cached: SeriesMap, period: Option<string>, scale: real)
    requires Honest(node, chart, cached, scale)
    ensures Answer(node, chart, cached, period, scale) == Uncached(node, chart, period, scale)
  {
    hide Gather, Honest;
    GatherHonest(node, chart, cached, if period.Some? then [period.value] else KEYS, scale);
  }

  lemma NoneGathered(node: Option<Object>, chart: string, cached: SeriesMap, keys: seq<string>, scale: real)
    ensures Gather(node, chart, cached, keys[..0], scale) == Found(map[])
  {
  }

  lemma GatherNext(node: Option<Object>, chart: string, cached: SeriesMap, keys: seq<string>, i: nat, scale: real)
    requires i < |keys|
    ensures keys[..i + 1] == keys[..i] + [keys[i]]
    ensures var before, d := Gather(node, chart, cached, keys[..i], scale), Fetch(node, chart, cached, keys[i], scale);
            Gather(node, chart, cached, keys[..i + 1], scale)
            == if before.Failed? || d.Missing? then before
               else if d.Raises? then Failed(d.error)
               else Found(before.series[ResultKey(keys[i]) := d.points])
  {
    assert keys[..i + 1][..|keys[..i + 1]| - 1] == keys[..i];
  }

  lemma {:induction false} GatherFails(node: Option<Object>, chart: string, cached: SeriesMap, keys: seq<string>,
                                       i: nat, scale: real)
    requires i < |keys| && Gather(node, chart, cached, keys[..i], scale).Found?
             && Fetch(node, chart, cached, keys[i], scale).Raises?
    ensures Gather(node, chart, cached, keys, scale) == Failed(Fetch(node, chart, cached, keys[i], scale).error)
  {
    if i < |keys| - 1 {
      assert keys[..|keys| - 1][..i] == keys[..i];
      GatherFails(node, chart, cached, keys[..|keys| - 1], i, scale);
    }
  }

  class Bandwidth {
    const document: Document

    constructor (document: Document)
      ensures this.document == document
    {
      this.document := document;
    }

    /** What was read counts as negative. */
    method Read(period: Option<string>) returns (r: Chart)
      requires document.Valid()
      modifies document`cache
      ensures document.Valid()
      ensures r == if document.objectData.None? then Nothing
              else Uncached(document.objectData, "read_history", period, -1.0)
    {
      if document.objectData.None? { return Nothing; }
      r := document.ReadChart("read_history", period, -1.0);
    }

    method Write(period: Option<string>) returns (r: Chart)
      requires document.Valid()
      modifies document`cache
      ensures document.Valid()
      ensures r == if document.objectData.None? then Nothing
              else Uncached(document.objectData, "write_history", period, 1.0)
    {
      if document.objectData.None? { return Nothing; }
      r := document.ReadChart("write_history", period, 1.0);
    }
  }

  datatype Weight = ConsensusWeightFraction | GuardProbability | MiddleProbability | ExitProbability | ConsensusWeight

  function ChartName(w: Weight): string
  {
    match w
    case ConsensusWeightFraction => "consensus_weight_fraction"
    case GuardProbability => "guard_probability"
    case MiddleProbability => "middle_probability"
    case ExitProbability => "exit_probability"
    case ConsensusWeight => "consensus_weight"
  }

  class Weights {
    const document: Document

    constructor (document: Document)
      ensures this.document == document
    {
      this.document := document;
    }

    method Read(w: Weight, period: Option<string>) returns (r: Chart)
      requires document.Valid()
      modifies document`cache
      ensures document.Valid()
      ensures r == if document.objectData.None? then Nothing
              else Uncached(document.objectData, ChartName(w), period, 1.0)
      ensures document.objectData.Some? ==>
                match w
                case ConsensusWeightFraction =>
                  r == Uncached(document.objectData, "consensus_weight_fraction", period, 1.0)
                case GuardProbability => r == Uncached(document.objectData, "guard_probability", period, 1.0)
                case MiddleProbability => r == Uncached(document.objectData, "middle_probability", period, 1.0)
                case ExitProbability => r == Uncached(document.objectData, "exit_probability", period, 1.0)
                case ConsensusWeight => r == Uncached(document.objectData, "consensus_weight", period, 1.0)
    {
      if document.objectData.None? { return Nothing; }
      r := document.ReadChart(ChartName(w), period, 1.0);
    }
  }

  // ---- without that discipline

  lemma ScaledAlike(v: real, factor: real, f: real, g: real, a: real)
    requires a == v * factor
    ensures Scaled(Some(v), factor, f) == Scaled(Some(v), factor, g) <==> f == g || a == 0.0
  {
    ProductIs(v, factor, f, a);
    ProductIs(v, factor, g, a);
    SameProduct(a, f, g);
  }

  lemma ProductIs(v: real, factor: real, scale: real, a: real)
    requires a == v * factor
    ensures Product(v, factor, scale) == a * scale
  {
  }

  lemma SameProduct(a: real, f: real, g: real)
    ensures a * f == a * g <==> f == g || a == 0.0
  {
    if a * f == a * g { assert a * (f - g) == 0.0; }
  }

  // Nothing in the history depends on the scale.
  predicate Scaleless(h: History)
  {
    forall i :: 0 <= i < h.count && i < |h.values| && h.values[i].Some? ==> h.values[i].value * h.factor == 0.0
  }

  /** Two scales decode a history alike exactly when they are equal or it has no value but zero. */
  lemma DecodingsAgree(h: History, f: real, g: real)
    requires h.count <= |h.values|
    ensures Decoding(h, f) == Decoding(h, g) <==> f == g || Scaleless(h)
  {
    var d, e := Decoding(h, f).points, Decoding(h, g).points;
    forall i | 0 <= i < h.count && h.values[i].Some?
      ensures d[i] == e[i] <==> f == g || h.values[i].value * h.factor == 0.0
    {
      assert d[i] == PointAt(h, f, i) && e[i] == PointAt(h, g, i);
      ScaledAlike(h.values[i].value, h.factor, f, g, h.values[i].value * h.factor);
    }
    if f == g || Scaleless(h) {
      forall i | 0 <= i < |d| ensures d[i] == e[i] {
        assert d[i] == PointAt(h, f, i) && e[i] == PointAt(h, g, i);
      }
      assert d == e;
    }
  }

  /**
   `get_chart` called for a period that was cached with scale f: with scale g the answer is
   right exactly when the scales are equal or the history has no value but zero.
  */
  lemma MixedScales(node: Option<Object>, chart: string, key: string, cached: SeriesMap, f: real, g: real)
    requires key in KEYS && key in cached && Decode(node, chart, key, f) == Series(cached[key])
    ensures Answer(node, chart, cached, Some(key), g) == Uncached(node, chart, Some(key), g)
            <==> f == g || Scaleless(Open(GraphOf(node, chart, key).value).history)
  {
    hide KEYS, ResultKey;
    var h := Open(GraphOf(node, chart, key).value).history;
    DecodingsAgree(h, f, g);
    SingleKey(node, chart, cached, key, g);
    SingleKey(node, chart, map[], key, g);
  }

  lemma SingleKey(node: Option<Object>, chart: string, cached: SeriesMap, key: string, scale: real)
    requires key in KEYS && Fetch(node, chart, cached, key, scale).Series?
    ensures Answer(node, chart, cached, Some(key), scale)
         == Charts(map[ResultKey(key) := Fetch(node, chart, cached, key, scale).points])
  {
    NoneGathered(node, chart, cached, [key], scale);
    GatherNext(node, chart, cached, [key], 0, scale);
    assert [key][..1] == [key];
    var m: SeriesMap := map[];
    var n := m[ResultKey(key) := Fetch(node, chart, cached, key, scale).points];
    assert ResultKey(key) in n;
  }

  // ---- where the series of a period arrive

  lemma {:induction false} GatherNames(node: Option<Object>, chart: string, cached: SeriesMap, keys: seq<string>,
                                       scale: real, name: string)
    requires var g := Gather(node, chart, cached, keys, scale); g.Found? && name in g.series
    ensures exists j :: 0 <= j < |keys| && ResultKey(keys[j]) == name
  {
    hide ResultKey, Fetch;
    if keys != [] {
      var n := |keys| - 1;
      if ResultKey(keys[n]) != name {
        GatherNames(node, chart, cached, keys[..n], scale, name);
        var j :| 0 <= j < n && ResultKey(keys[..n][j]) == name;
        assert keys[j] == keys[..n][j];
      }
    }
  }

  lemma {:induction false} GatherHas(node: Option<Object>, chart: string, cached: SeriesMap, keys: seq<string>,
                                     scale: real, i: nat)
    requires i < |keys| && Gather(node, chart, cached, keys, scale).Found?
    requires forall j, k :: 0 <= j < k < |keys| ==> ResultKey(keys[j]) != ResultKey(keys[k])
    ensures var m, d := Gather(node, chart, cached, keys, scale).series, Fetch(node, chart, cached, keys[i], scale);
            if d.Series? then ResultKey(keys[i]) in m && m[ResultKey(keys[i])] == d.points
            else ResultKey(keys[i]) !in m
  {
    hide ResultKey, Fetch;
    var n := |keys| - 1;
    var init := keys[..n];
    if i < n {
      GatherHas(node, chart, cached, init, scale, i);
    } else if ResultKey(keys[i]) in Gather(node, chart, cached, init, scale).series {
      GatherNames(node, chart, cached, init, scale, ResultKey(keys[i]));
    }
  }

  lemma NamedIs(period: string, name: string)
    requires (period, name) in [("5_years", "y5"), ("1_year", "y1"), ("6_months", "m6"), ("3_months", "m3"),
                                ("1_month", "m1"), ("1_week", "w1"), ("3_days", "d3")]
    ensures period in KEYS && ResultKey(period) == name
  {
    assert KEYS[0] == "5_years" && KEYS[1] == "1_year" && KEYS[2] == "6_months" && KEYS[3] == "3_months";
    assert KEYS[4] == "1_month" && KEYS[5] == "1_week" && KEYS[6] == "3_days";
  }

  lemma NamesDiffer()
    ensures forall j, k :: 0 <= j < k < |KEYS| ==> ResultKey(KEYS[j]) != ResultKey(KEYS[k])
  {
  }

  /**
   The series of a period arrives under the short name of the period, whether the period is
   asked for by itself or with all others, and without a series there is no such name.
  */
  lemma PeriodsArrive(node: Option<Object>, chart: string, cached: SeriesMap, period: string, name: string, scale: real)
    requires (period, name) in [("5_years", "y5"), ("1_year", "y1"), ("6_months", "m6"), ("3_months", "m3"),
                                ("1_month", "m1"), ("1_week", "w1"), ("3_days", "d3")]
    ensures var d := Fetch(node, chart, cached, period, scale);
            var one, all := Answer(node, chart, cached, Some(period), scale), Answer(node, chart, cached, None, scale);
            (d.Series? ==> one == Charts(map[name := d.points]))
            && (all.Charts? ==> if d.Series? then name in all.series && all.series[name] == d.points
                                else name !in all.series)
            && (all.Nothing? ==> !d.Series?)
  {
    NamedIs(period, name);
    NamesDiffer();
    hide KEYS, ResultKey, Gather, Fetch;
    if Fetch(node, chart, cached, period, scale).Series? { SingleKey(node, chart, cached, period, scale); }
    if Gather(node, chart, cached, KEYS, scale).Found? {
      var i :| 0 <= i < |KEYS| && KEYS[i] == period;
      GatherHas(node, chart, cached, KEYS, scale, i);
    }
  }

  /** So a chart read with both signs is stale: one value, 1, first as written, then as read. */
  lemma StaleChart()
    ensures var graph := Graph(Some([Some(1.0)]), Some(1), Some(1), Some(1.0), Some(Number(0)));
            var node: Option<Object> := Some(map["read_history" := map["3_days" := graph]]);
            var cached := map["3_days" := Decode(node, "read_history", "3_days", 1.0).points];
            Answer(node, "read_history", cached, Some("3_days"), -1.0)
            != Uncached(node, "read_history", Some("3_days"), -1.0)
  {
    var graph := Graph(Some([Some(1.0)]), Some(1), Some(1), Some(1.0), Some(Number(0)));
    var node: Option<Object> := Some(map["read_history" := map["3_days" := graph]]);
    var h := History(0, 1, 1, 1.0, [Some(1.0)]);
    assert Open(graph) == Opened(h);
    assert h.values[0].value * h.factor == 1.0;
    assert KEYS[6] == "3_days";
    MixedScales(node, "read_history", "3_days", map["3_days" := Decoding(h, 1.0).points], 1.0, -1.0);
  }
}
