/**
 The bandwidth chart of the control center: every card sends the traffic of the relay it
 represents; several cards may represent the same relay.
*/
module Bandwidth {
  import opened Collections
  import opened JsNumbers
  import opened TimeSeries

  datatype Datapoint = Datapoint(s: int, r: int, w: int)
  datatype Traffic = Traffic(r: int, w: int)

  // The record kept for a relay: the card it came from, the second of the last point on the
  // chart, and the last point that repeated this second.
  datatype Provider = Provider(id: string, tss: Option<int>, carry: Option<Traffic>)

  // One point put on the chart. A filler is the zero behind the end of the data.
  datatype Entry = Entry(rep: string, second: int, traffic: Traffic, filler: bool)

  // int(s / 1e3): truncation towards zero, then 32 bits.
  function Seconds(s: int): int { I32(if s >= 0 then s / 1000 else -(-s / 1000)) }

  lemma SecondsAre(s: int)
    requires 0 <= s < 1000 * 0x8000_0000
    ensures 1000 * Seconds(s) <= s < 1000 * Seconds(s) + 1000
  {
  }

  /** One datapoint: the new record and what goes on the chart. */
  function Feed(rep: string, p: Provider, d: Datapoint): (Provider, seq<Entry>)
  {
    var tss, here := Seconds(d.s), Traffic(d.r, d.w);
    if p.tss == Some(tss) then (p.(carry := Some(here)), [])
    else
      var gap := if p.tss.Some? && tss > p.tss.value + 1 && p.carry.Some?
                 then [Entry(rep, p.tss.value + 1, p.carry.value, false)] else [];
      (p.(tss := Some(tss), carry := None), gap + [Entry(rep, tss, here, false)])
  }

  function FeedAll(rep: string, p: Provider, data: seq<Datapoint>): (Provider, seq<Entry>)
  {
    if data == [] then (p, [])
    else
      var (q, e) := FeedAll(rep, p, data[..|data| - 1]);
      var (q', e') := Feed(rep, q, data[|data| - 1]);
      (q', e + e')
  }

  /**
   One card, one relay: the second point repeats its second, so that it is kept back until
   a second is missing.
  */
  lemma FeedAllExample(rep: string)
    ensures var data := [Datapoint(1000, 5, 7), Datapoint(1999, 6, 8), Datapoint(4000, 1, 2), Datapoint(5000, 3, 4)];
            FeedAll(rep, Provider("card", None, None), data)
            == (Provider("card", Some(5), None),
                [Entry(rep, 1, Traffic(5, 7), false), Entry(rep, 2, Traffic(6, 8), false),
                 Entry(rep, 4, Traffic(1, 2), false), Entry(rep, 5, Traffic(3, 4), false)])
  {
    hide FeedAll;
    var p, e1 := Provider("card", None, None), Entry(rep, 1, Traffic(5, 7), false);
    var e2 := Entry(rep, 2, Traffic(6, 8), false);
    var e4, e5 := Entry(rep, 4, Traffic(1, 2), false), Entry(rep, 5, Traffic(3, 4), false);
    var d1, d2, d3, d4 := Datapoint(1000, 5, 7), Datapoint(1999, 6, 8), Datapoint(4000, 1, 2), Datapoint(5000, 3, 4);
    FeedAllSnoc(rep, p, [], d1);
    assert [] + [d1] == [d1] && [] + [e1] == [e1];
    FeedAllSnoc(rep, p, [d1], d2);
    assert [d1] + [d2] == [d1, d2] && [e1] + [] == [e1];
    FeedAllSnoc(rep, p, [d1, d2], d3);
    assert [d1, d2] + [d3] == [d1, d2, d3] && [e1] + [e2, e4] == [e1, e2, e4];
    assert Feed(rep, Provider("card", Some(1), Some(Traffic(6, 8))), d3).1 == [e2] + [e4] == [e2, e4];
    FeedAllSnoc(rep, p, [d1, d2, d3], d4);
    assert [d1, d2, d3] + [d4] == [d1, d2, d3, d4] && [e1, e2, e4] + [e5] == [e1, e2, e4, e5];
    assert Feed(rep, Provider("card", Some(4), None), d4).1 == [] + [e5] == [e5];
  }

  lemma FeedAllSnoc(rep: string, p: Provider, data: seq<Datapoint>, d: Datapoint)
    ensures FeedAll(rep, p, []) == (p, [])
    ensures var (q, e) := FeedAll(rep, p, data);
            FeedAll(rep, p, data + [d]) == (Feed(rep, q, d).0, e + Feed(rep, q, d).1)
  {
    assert (data + [d])[..|data + [d]| - 1] == data;
  }

  // ---- what a list of datapoints puts on the chart

  // The second of the point before datapoint k.
  function SecondBefore(p: Provider, data: seq<Datapoint>, k: nat): Option<int>
    requires k <= |data|
  {
    if k == 0 then p.tss else Some(Seconds(data[k - 1].s))
  }

  // The point before datapoint k, if it repeated its second.
  function RepeatedBefore(p: Provider, data: seq<Datapoint>, k: nat): Option<Traffic>
    requires k <= |data|
  {
    if k == 0 then p.carry
    else
      var d := data[k - 1];
      if SecondBefore(p, data, k - 1) == Some(Seconds(d.s)) then Some(Traffic(d.r, d.w)) else None
  }

  // Datapoint k opens a second and puts e on the chart: its own traffic, or, in the second
  // behind the one before it if that one is empty, the last point that repeated that one.
  predicate Shows(rep: string, p: Provider, data: seq<Datapoint>, k: nat, e: Entry)
    requires k < |data|
  {
    var here, before, carry := Seconds(data[k].s), SecondBefore(p, data, k), RepeatedBefore(p, data, k);
    before != Some(here)
    && (e == Entry(rep, here, Traffic(data[k].r, data[k].w), false)
        || (before.Some? && here > before.value + 1 && carry.Some?
            && e == Entry(rep, before.value + 1, carry.value, false)))
  }

  /** Nothing but that comes onto the chart, and all of that. */
  lemma {:induction false} FeedAllShows(rep: string, p: Provider, data: seq<Datapoint>)
    ensures var (q, log) := FeedAll(rep, p, data);
            q == Provider(p.id, SecondBefore(p, data, |data|), RepeatedBefore(p, data, |data|))
            && forall e :: e in log <==> exists k :: 0 <= k < |data| && Shows(rep, p, data, k, e)
  {
    var (q, log) := FeedAll(rep, p, data);
    if data != [] {
      var n := |data| - 1;
      var init := data[..n];
      var (q0, log0) := FeedAll(rep, p, init);
      FeedAllShows(rep, p, init);
      assert forall k, e :: 0 <= k < n ==> (Shows(rep, p, init, k, e) <==> Shows(rep, p, data, k, e));
      var (_, added) := Feed(rep, q0, data[n]);
      assert log == log0 + added;
      assert forall e :: e in added <==> Shows(rep, p, data, n, e);
      forall e ensures e in log <==> exists k :: 0 <= k < |data| && Shows(rep, p, data, k, e) {
        if k :| 0 <= k < |data| && Shows(rep, p, data, k, e) {
          if k < n { assert Shows(rep, p, init, k, e); }
        }
      }
    }
  }

  // ---- each relay has at most one point in a second

  // The points of the relay that are not fillers lie in strictly increasing seconds, up to `last`.
  ghost predicate Increasing(log: seq<Entry>, rep: string, last: int)
  {
    (forall i :: 0 <= i < |log| && Real(log[i], rep) ==> log[i].second <= last)
    && forall i, j :: 0 <= i < j < |log| && Real(log[i], rep) && Real(log[j], rep) ==> log[i].second < log[j].second
  }

  predicate Real(e: Entry, rep: string) { e.rep == rep && !e.filler }

  ghost predicate Absent(log: seq<Entry>, rep: string)
  {
    forall i :: 0 <= i < |log| ==> !Real(log[i], rep)
  }

  // What the record says about the chart.
  ghost predicate Matches(log: seq<Entry>, rep: string, p: Provider)
  {
    if p.tss.None? then Absent(log, rep) && p.carry.None? else Increasing(log, rep, p.tss.value)
  }

  predicate SecondsNotBefore(p: Provider, d: Datapoint)
  {
    p.tss.Some? ==> Seconds(d.s) >= p.tss.value
  }

  predicate Ascending(data: seq<Datapoint>)
  {
    forall i, j :: 0 <= i < j < |data| ==> Seconds(data[i].s) <= Seconds(data[j].s)
  }

  lemma FeedKeepsIncreasing(log: seq<Entry>, rep: string, p: Provider, d: Datapoint)
    requires Matches(log, rep, p) && SecondsNotBefore(p, d)
    ensures var (q, e) := Feed(rep, p, d);
            Matches(log + e, rep, q) && q.tss == Some(Seconds(d.s))
  {
    var (q, e) := Feed(rep, p, d);
    assert forall i :: |log| <= i < |log + e| ==> (log + e)[i] == e[i - |log|];
  }

  lemma {:induction false} FeedAllKeepsIncreasing(log: seq<Entry>, rep: string, p: Provider, data: seq<Datapoint>)
    requires Matches(log, rep, p) && Ascending(data)
    requires data != [] ==> SecondsNotBefore(p, data[0])
    ensures var (q, e) := FeedAll(rep, p, data);
            Matches(log + e, rep, q)
            && q.tss == if data == [] then p.tss else Some(Seconds(data[|data| - 1].s))
  {
    if data == [] {
      assert log + [] == log;
    } else {
      var init, d := data[..|data| - 1], data[|data| - 1];
      FeedAllKeepsIncreasing(log, rep, p, init);
      var (q, e) := FeedAll(rep, p, init);
      FeedKeepsIncreasing(log + e, rep, q, d);
      var (_, e') := Feed(rep, q, d);
      assert log + e + e' == log + (e + e');
    }
  }

  // Entries of other relays do not matter.
  lemma OthersKeepMatch(log: seq<Entry>, e: seq<Entry>, rep: string, p: Provider)
    requires Matches(log, rep, p)
    requires forall i :: 0 <= i < |e| ==> !Real(e[i], rep)
    ensures Matches(log + e, rep, p)
  {
    assert forall i :: |log| <= i < |log + e| ==> (log + e)[i] == e[i - |log|];
  }

  lemma {:induction false} FeedAllOf(rep: string, p: Provider, data: seq<Datapoint>)
    ensures var (q, e) := FeedAll(rep, p, data);
            q.id == p.id && forall i :: 0 <= i < |e| ==> e[i].rep == rep
  {
    if data != [] { FeedAllOf(rep, p, data[..|data| - 1]); }
  }

  // ---- the chart value of a second

  function Plus(t: Traffic, u: Traffic): Traffic { Traffic(t.r + u.r, t.w + u.w) }

  const NOTHING: Traffic := Traffic(0, 0)

  function Sum(log: seq<Entry>, second: int): Traffic
  {
    if log == [] then NOTHING
    else
      var e := log[|log| - 1];
      Plus(Sum(log[..|log| - 1], second), if e.second == second then e.traffic else NOTHING)
  }

  lemma SumSnoc(log: seq<Entry>, e: Entry, second: int)
    ensures Sum(log + [e], second) == Plus(Sum(log, second), if e.second == second then e.traffic else NOTHING)
  {
    assert (log + [e])[..|log + [e]| - 1] == log;
  }

  lemma {:induction false} SumConcat(log: seq<Entry>, added: seq<Entry>, second: int)
    ensures Sum(log + added, second) == Plus(Sum(log, second), Sum(added, second))
  {
    if added == [] {
      assert log + added == log;
    } else {
      var init, e := added[..|added| - 1], added[|added| - 1];
      assert log + added == log + init + [e];
      SumSnoc(log + init, e, second);
      SumConcat(log, init, second);
    }
  }

  /** The traffic of one relay in one second: the latest, which is the only one. */
  function Contribution(log: seq<Entry>, rep: string, second: int): Traffic
  {
    if log == [] then NOTHING
    else
      var e := log[|log| - 1];
      if Real(e, rep) && e.second == second then e.traffic
      else Contribution(log[..|log| - 1], rep, second)
  }

  function Total(log: seq<Entry>, reps: seq<string>, second: int): Traffic
  {
    if reps == [] then NOTHING
    else Plus(Contribution(log, reps[0], second), Total(log, reps[1..], second))
  }

  /** With one point in a second, that point is the contribution; without any it is zero. */
  lemma {:induction false} ContributionIs(log: seq<Entry>, rep: string, second: int)
    requires OnePerSecond(log)
    ensures forall e :: e in log && Real(e, rep) && e.second == second ==> Contribution(log, rep, second) == e.traffic
    ensures (forall e :: e in log && Real(e, rep) ==> e.second != second) ==>
              Contribution(log, rep, second) == Traffic(0, 0)
  {
    if log != [] {
      var init, last := log[..|log| - 1], log[|log| - 1];
      assert log == init + [last];
      ContributionIs(init, rep, second);
      if Real(last, rep) && last.second == second {
        forall e | e in init && Real(e, rep) ensures e.second < second {
          var i :| 0 <= i < |init| && init[i] == e;
          assert log[i] == e;
        }
      }
    }
  }

  ghost predicate OnePerSecond(log: seq<Entry>)
  {
    forall i, j :: 0 <= i < j < |log| && !log[i].filler && !log[j].filler && log[i].rep == log[j].rep
                   ==> log[i].second < log[j].second
  }

  ghost predicate FillersAreZero(log: seq<Entry>)
  {
    forall i :: 0 <= i < |log| && log[i].filler ==> log[i].traffic == Traffic(0, 0)
  }

  lemma {:induction false} NoneBefore(log: seq<Entry>, rep: string, second: int)
    requires forall i :: 0 <= i < |log| && Real(log[i], rep) ==> log[i].second < second
    ensures Contribution(log, rep, second) == NOTHING
  {
    if log != [] { NoneBefore(log[..|log| - 1], rep, second); }
  }

  lemma ContributionLast(log: seq<Entry>, e: Entry, rep: string, second: int)
    ensures Contribution(log + [e], rep, second)
         == if Real(e, rep) && e.second == second then e.traffic else Contribution(log, rep, second)
  {
    assert (log + [e])[..|log + [e]| - 1] == log;
  }

  lemma EarlierOnly(log: seq<Entry>, e: Entry, rep: string)
    requires OnePerSecond(log + [e]) && Real(e, rep)
    ensures forall i :: 0 <= i < |log| && Real(log[i], rep) ==> log[i].second < e.second
  {
    var all := log + [e];
    forall i | 0 <= i < |log| && Real(log[i], rep) ensures log[i].second < e.second {
      assert all[i] == log[i] && all[|log|] == e;
    }
  }

  lemma ContributionSnoc(log: seq<Entry>, e: Entry, rep: string, second: int)
    requires OnePerSecond(log + [e])
    ensures Contribution(log + [e], rep, second)
         == Plus(Contribution(log, rep, second), if Real(e, rep) && e.second == second then e.traffic else NOTHING)
  {
    hide Contribution, OnePerSecond, Real;
    ContributionLast(log, e, rep, second);
    if Real(e, rep) && e.second == second {
      EarlierOnly(log, e, rep);
      NoneBefore(log, rep, second);
    }
  }

  lemma FirstIsElsewhere(reps: seq<string>, rep: string)
    requires Distinct(reps) && reps != []
    ensures Distinct(reps[1..])
    ensures rep in reps <==> rep == reps[0] || rep in reps[1..]
    ensures rep == reps[0] ==> rep !in reps[1..]
  {
  }

  lemma TotalFirst(log: seq<Entry>, reps: seq<string>, second: int)
    ensures Total(log, reps, second)
         == if reps == [] then NOTHING else Plus(Contribution(log, reps[0], second), Total(log, reps[1..], second))
  {
  }

  lemma {:induction false} TotalSnoc(log: seq<Entry>, e: Entry, reps: seq<string>, second: int)
    requires OnePerSecond(log + [e]) && Distinct(reps)
    ensures Total(log + [e], reps, second)
         == Plus(Total(log, reps, second),
                 if e.second == second && !e.filler && e.rep in reps then e.traffic else NOTHING)
  {
    hide Contribution, OnePerSecond, Distinct, Total;
    TotalFirst(log, reps, second);
    TotalFirst(log + [e], reps, second);
    if reps != [] {
      FirstIsElsewhere(reps, e.rep);
      TotalSnoc(log, e, reps[1..], second);
      ContributionSnoc(log, e, reps[0], second);
    }
  }

  /** What was put on the chart for a second is one datapoint of each relay, summed up. */
  lemma {:induction false} SumIsTotal(log: seq<Entry>, reps: seq<string>, second: int)
    requires OnePerSecond(log) && FillersAreZero(log) && Distinct(reps)
    requires forall i :: 0 <= i < |log| && !log[i].filler ==> log[i].rep in reps
    ensures Sum(log, second) == Total(log, reps, second)
  {
    if log == [] {
      TotalOfNothing(reps, second);
    } else {
      var init, e := log[..|log| - 1], log[|log| - 1];
      assert log == init + [e];
      SumIsTotal(init, reps, second);
      TotalSnoc(init, e, reps, second);
    }
  }

  lemma {:induction false} TotalOfNothing(reps: seq<string>, second: int)
    ensures Total([], reps, second) == NOTHING
  {
    if reps != [] { TotalOfNothing(reps[1..], second); }
  }

  // ---- the chart

  function Value(m: map<int, int>, t: int): int { if t in m then m[t] else 0 }

  // The two series show the sums of the log, at whole seconds.
  ghost predicate Charted(read: map<int, int>, written: map<int, int>, log: seq<Entry>)
  {
    (forall t :: t in read || t in written ==> t % 1000 == 0)
    && forall second :: Value(read, 1000 * second) == Sum(log, second).r
                        && Value(written, 1000 * second) == Sum(log, second).w
  }

  lemma ValueNext(m: map<int, int>, t: int, v: int, u: int)
    ensures Value(m[t := Value(m, t) + v], u) == Value(m, u) + if u == t then v else 0
  {
  }

  lemma ChartedAppend(read: map<int, int>, written: map<int, int>, log: seq<Entry>, e: Entry)
    requires Charted(read, written, log)
    ensures var t := 1000 * e.second;
            Charted(read[t := Value(read, t) + e.traffic.r], written[t := Value(written, t) + e.traffic.w], log + [e])
  {
    hide Sum, Value;
    var t := 1000 * e.second;
    var r, w := read[t := Value(read, t) + e.traffic.r], written[t := Value(written, t) + e.traffic.w];
    forall second
      ensures Value(r, 1000 * second) == Sum(log + [e], second).r && Value(w, 1000 * second) == Sum(log + [e], second).w
    {
      SumSnoc(log, e, second);
      ValueNext(read, t, e.traffic.r, 1000 * second);
      ValueNext(written, t, e.traffic.w, 1000 * second);
    }
  }

  // The record of a relay agrees with the log, and with what its card has sent.
  ghost predicate Recorded(log: seq<Entry>, rep: string, p: Provider, lastSent: map<string, int>)
  {
    Matches(log, rep, p) && (p.tss.Some? ==> p.id in lastSent && p.tss.value <= lastSent[p.id])
  }

  ghost predicate AllRecorded(log: seq<Entry>, providers: map<string, Provider>, lastSent: map<string, int>)
  {
    FillersAreZero(log)
    && forall rep: string :: if rep in providers then Recorded(log, rep, providers[rep], lastSent) else Absent(log, rep)
  }

  lemma RecordedOnce(log: seq<Entry>, providers: map<string, Provider>, lastSent: map<string, int>)
    requires AllRecorded(log, providers, lastSent)
    ensures OnePerSecond(log)
    ensures forall i :: 0 <= i < |log| && !log[i].filler ==> log[i].rep in providers
  {
    forall i | 0 <= i < |log| && !log[i].filler ensures log[i].rep in providers {
      assert Real(log[i], log[i].rep);
    }
    forall i, j | 0 <= i < j < |log| && !log[i].filler && !log[j].filler && log[i].rep == log[j].rep
      ensures log[i].second < log[j].second
    {
      var rep := log[i].rep;
      assert Recorded(log, rep, providers[rep], lastSent);
      assert Real(log[i], rep) && Real(log[j], rep);
    }
  }

  // The event that is accepted: what it adds to the log, filler included.
  function Added(rep: string, p: Provider, data: seq<Datapoint>): seq<Entry>
    requires data != []
  {
    FeedAll(rep, p, data).1 + [Entry(rep, Seconds(data[|data| - 1].s) + 1, Traffic(0, 0), true)]
  }

  // The record that an event starts from.
  function Base(providers: map<string, Provider>, id: string, rep: string): Provider
  {
    if rep in providers then providers[rep].(id := id) else Provider(id, None, None)
  }

  // Another card is in charge of the relay, and less than 15 seconds have passed.
  predicate Guarded(providers: map<string, Provider>, id: string, rep: string, data: seq<Datapoint>)
  {
    data != [] && rep in providers && providers[rep].id != id && providers[rep].tss.Some?
    && providers[rep].tss.value > Seconds(data[0].s) - 15
  }

  // The second is new to the relay, and no other card is in charge of it.
  predicate Opens(providers: map<string, Provider>, id: string, rep: string, second: int)
  {
    rep in providers ==>
      var p := providers[rep];
      p.tss.None? || (p.tss.value != second && (p.id == id || second >= p.tss.value + 15))
  }

  lemma FeedOne(rep: string, p: Provider, d: Datapoint)
    ensures FeedAll(rep, p, [d]) == Feed(rep, p, d)
  {
    hide Feed;
    assert [d][..0] == [];
    assert FeedAll(rep, p, []) == (p, []);
    assert [] + Feed(rep, p, d).1 == Feed(rep, p, d).1;
  }

  lemma SumOfOne(e: Entry, second: int)
    ensures Sum([e], second) == if e.second == second then e.traffic else NOTHING
  {
    assert [e] == [] + [e];
    SumSnoc([], e, second);
  }

  /** A single point of a new second is on the chart in this second, whatever comes with it. */
  lemma OnePoint(rep: string, p: Provider, d: Datapoint)
    requires p.tss != Some(Seconds(d.s))
    ensures Sum(Added(rep, p, [d]), Seconds(d.s)) == Traffic(d.r, d.w)
  {
    hide Seconds, Sum, FeedAll;
    FeedOne(rep, p, d);
    var e, second := Feed(rep, p, d).1, Seconds(d.s);
    var point, filler := Entry(rep, second, Traffic(d.r, d.w), false), Entry(rep, second + 1, Traffic(0, 0), true);
    assert Added(rep, p, [d]) == e + [filler];
    SumSnoc(e, filler, second);
    SumOfOne(point, second);
    if |e| == 2 {
      assert e == [e[0]] + [point];
      SumOfOne(e[0], second);
      SumSnoc([e[0]], point, second);
    } else {
      assert e == [point];
    }
  }

  lemma ChartedGrows(read: map<int, int>, written: map<int, int>, log: seq<Entry>,
                     newRead: map<int, int>, newWritten: map<int, int>, added: seq<Entry>)
    requires Charted(read, written, log) && Charted(newRead, newWritten, log + added)
    ensures forall second ::
              Value(newRead, 1000 * second) == Value(read, 1000 * second) + Sum(added, second).r
              && Value(newWritten, 1000 * second) == Value(written, 1000 * second) + Sum(added, second).w
  {
    hide Sum, Value;
    forall second
      ensures Value(newRead, 1000 * second) == Value(read, 1000 * second) + Sum(added, second).r
              && Value(newWritten, 1000 * second) == Value(written, 1000 * second) + Sum(added, second).w
    {
      SumConcat(log, added, second);
    }
  }

  // What an accepted event adds to the values, and the one point of an event that has no other.
  lemma EventGrows(read: map<int, int>, written: map<int, int>, log: seq<Entry>,
                   newRead: map<int, int>, newWritten: map<int, int>,
                   rep: string, p: Provider, data: seq<Datapoint>)
    requires data != [] && Charted(read, written, log) && Charted(newRead, newWritten, log + Added(rep, p, data))
    ensures forall second ::
              Value(newRead, 1000 * second) == Value(read, 1000 * second) + Sum(Added(rep, p, data), second).r
              && Value(newWritten, 1000 * second) == Value(written, 1000 * second) + Sum(Added(rep, p, data), second).w
    ensures |data| == 1 && p.tss != Some(Seconds(data[0].s)) ==>
              var t := 1000 * Seconds(data[0].s);
              Value(newRead, t) == Value(read, t) + data[0].r && Value(newWritten, t) == Value(written, t) + data[0].w
  {
    hide Charted, Added, Sum, Value, Seconds;
    ChartedGrows(read, written, log, newRead, newWritten, Added(rep, p, data));
    if |data| == 1 && p.tss != Some(Seconds(data[0].s)) {
      OnePoint(rep, p, data[0]);
      assert data == [data[0]];
    }
  }

  // The card's points have come in order, among themselves and after its last one.
  predicate InOrder(lastSent: map<string, int>, id: string, data: seq<Datapoint>)
  {
    Ascending(data) && (data != [] && id in lastSent ==> Seconds(data[0].s) >= lastSent[id])
  }

  // What it means for a card's points, and for one event after another, to come in order.
  lemma OrderIs(lastSent: map<string, int>, id: string, data: seq<Datapoint>)
    ensures InOrder(lastSent, id, data)
            <==> (forall i, j :: 0 <= i < j < |data| ==> Seconds(data[i].s) <= Seconds(data[j].s))
                 && (data != [] && id in lastSent ==> Seconds(data[0].s) >= lastSent[id])
    ensures SentAfter(lastSent, id, data)
         == if data == [] then lastSent else lastSent[id := Seconds(data[|data| - 1].s)]
  {
  }

  // The second of the last point of each card.
  function SentAfter(lastSent: map<string, int>, id: string, data: seq<Datapoint>): map<string, int>
  {
    if data == [] then lastSent else lastSent[id := Seconds(data[|data| - 1].s)]
  }

  lemma AddedFillers(log: seq<Entry>, rep: string, p: Provider, data: seq<Datapoint>)
    requires FillersAreZero(log) && data != []
    ensures FillersAreZero(log + Added(rep, p, data))
  {
    FeedAllNoFillers(rep, p, data);
    var add := Added(rep, p, data);
    assert forall i :: |log| <= i < |log + add| ==> (log + add)[i] == add[i - |log|];
  }

  // With an empty chart the records of the others stand, and a relay may start anew.
  lemma BrokenKeepsRecords(log: seq<Entry>, providers: map<string, Provider>, lastSent: map<string, int>, id: string,
                           rep: string)
    requires AllRecorded(log, providers, lastSent)
    ensures AllRecorded([], providers[rep := Provider(id, None, None)], lastSent)
  {
    forall other: string | other in providers && other != rep ensures Recorded([], other, providers[other], lastSent) {
      assert Recorded(log, other, providers[other], lastSent);
    }
  }

  lemma AddedKeepsRecords(log: seq<Entry>, providers: map<string, Provider>, lastSent: map<string, int>,
                          id: string, rep: string, data: seq<Datapoint>)
    requires AllRecorded(log, providers, lastSent) && data != [] && InOrder(lastSent, id, data)
    requires !Guarded(providers, id, rep, data)
    ensures var p := Base(providers, id, rep);
            AllRecorded(log + Added(rep, p, data), providers[rep := FeedAll(rep, p, data).0],
                        SentAfter(lastSent, id, data))
  {
    var p, last := Base(providers, id, rep), Seconds(data[|data| - 1].s);
    var (q, e) := FeedAll(rep, p, data);
    var add, sent := Added(rep, p, data), SentAfter(lastSent, id, data);
    FeedAllOf(rep, p, data);
    AddedFillers(log, rep, p, data);
    FeedAllNoFillers(rep, p, data);
    assert Matches(log, rep, p);
    FeedAllKeepsIncreasing(log, rep, p, data);
    assert log + add == (log + e) + [add[|e|]];
    OthersKeepMatch(log + e, [add[|e|]], rep, q);
    forall other: string | other != rep
      ensures if other in providers then Recorded(log + add, other, providers[other], sent)
              else Absent(log + add, other)
    {
      if other in providers {
        OthersKeepMatch(log, add, other, providers[other]);
        assert Recorded(log, other, providers[other], lastSent);
        assert id in lastSent ==> lastSent[id] <= Seconds(data[0].s) <= last;
      } else {
        OthersKeepMatch(log, add, other, Provider("", None, None));
      }
    }
  }

  lemma {:induction false} FeedAllNoFillers(rep: string, p: Provider, data: seq<Datapoint>)
    ensures forall i :: 0 <= i < |FeedAll(rep, p, data).1| ==> !FeedAll(rep, p, data).1[i].filler
  {
    if data != [] { FeedAllNoFillers(rep, p, data[..|data| - 1]); }
  }

  class BandwidthChart {
    // The series behind the last point at the time NaN, and the parts in front of such points.
    var readData: TimeSeries
    var writtenData: TimeSeries
    var readBefore: seq<TimeSeries>
    var writtenBefore: seq<TimeSeries>
    var streamDataProviders: map<string, Provider>
    ghost var log: seq<Entry>               // everything put on these series so far
    ghost var lastSent: map<string, int>    // the second of the last point of each card
    ghost var orderly: bool                 // so far the points of each card came in order

    ghost predicate Valid()
      reads this, readData, writtenData
    {
      Showing(log) && FillersAreZero(log) && (orderly ==> AllRecorded(log, streamDataProviders, lastSent))
    }

    ghost predicate Showing(log: seq<Entry>)
      reads this, readData, writtenData
    {
      readData != writtenData && readData.Valid() && writtenData.Valid()
      && Charted(Contents(readData.data), Contents(writtenData.data), log)
    }

    constructor (clock: int)
      ensures Valid() && log == [] && lastSent == map[] && orderly && fresh(readData) && fresh(writtenData)
      ensures streamDataProviders == map[] && readBefore == writtenBefore == []
    {
      var read := new TimeSeries();
      var written := new TimeSeries();
      readData, writtenData, readBefore, writtenBefore := read, written, [], [];
      streamDataProviders := map[];
      log, lastSent, orderly := [], map[], true;
      new;
      var ts := Seconds(clock) * 1000;
      readData.Append(ts, 0, true);
      writtenData.Append(ts, 0, true);
    }

    // The pair of appends that puts one point on the chart.
    method Place(e: Entry, ghost before: seq<Entry>)
      requires Showing(before)
      modifies readData, writtenData
      ensures Showing(before + [e])
      ensures var t := 1000 * e.second;
              Contents(readData.data)
              == old(Contents(readData.data))[t := Value(old(Contents(readData.data)), t) + e.traffic.r]
              && Contents(writtenData.data)
                 == old(Contents(writtenData.data))[t := Value(old(Contents(writtenData.data)), t) + e.traffic.w]
    {
      hide Charted, Contents, Sorted;
      ChartedAppend(Contents(readData.data), Contents(writtenData.data), before, e);
      readData.Append(e.second * 1000, e.traffic.r, true);
      writtenData.Append(e.second * 1000, e.traffic.w, true);
    }

    // The loop of the handler.
    method FeedPoints(rep: string, p: Provider, data: seq<Datapoint>) returns (sdp: Provider, tss: int)
      requires Showing(log) && data != []
      modifies this`log, readData, writtenData
      ensures Showing(log)
      ensures sdp == FeedAll(rep, p, data).0 && log == old(log) + FeedAll(rep, p, data).1
      ensures tss == Seconds(data[|data| - 1].s)
    {
      hide Charted, Contents, Sorted, Seconds;
      sdp, tss := p, 0;
      var k := 0;
      while k < |data|
        invariant 0 <= k <= |data|
        invariant sdp == FeedAll(rep, p, data[..k]).0 && log == old(log) + FeedAll(rep, p, data[..k]).1
        invariant k > 0 ==> tss == Seconds(data[k - 1].s)
        invariant Showing(log)
      {
        assert data[..k + 1][..|data[..k + 1]| - 1] == data[..k];
        var datapoint := data[k];
        k := k + 1;
        tss := Seconds(datapoint.s);
        if sdp.tss.Some? {
          if tss == sdp.tss.value {
            sdp := sdp.(carry := Some(Traffic(datapoint.r, datapoint.w)));
            continue;
          }
          if tss > sdp.tss.value + 1 && sdp.carry.Some? {
            var gap := Entry(rep, sdp.tss.value + 1, sdp.carry.value, false);
            Place(gap, log);
            log := log + [gap];
          }
        }
        var point := Entry(rep, tss, Traffic(datapoint.r, datapoint.w), false);
        Place(point, log);
        log := log + [point];
        sdp := sdp.(tss := Some(tss), carry := None);
      }
      assert data[..|data|] == data;
    }

    // What an event without datapoints does: `tss` stays undefined, and the zero behind the
    // data gets the time NaN.
    method PlaceNowhere()
      requires Showing(log)
      modifies this`readData, this`writtenData, this`readBefore, this`writtenBefore, this`log
      ensures fresh(readData) && fresh(writtenData) && Showing([]) && log == []
      ensures readBefore == old(readBefore) + [old(readData)]
              && writtenBefore == old(writtenBefore) + [old(writtenData)]
    {
      var read := readData.Break(0);
      var written := writtenData.Break(0);
      readBefore, writtenBefore := readBefore + [readData], writtenBefore + [writtenData];
      readData, writtenData := read, written;
      log := [];
    }

    /**
     The `tobcc.bandwidth` handler, for any event. A relay taken over by another card is
     ignored until 15 seconds have passed. An event without datapoints starts the series and
     the record of the relay anew. Otherwise the points of the event are added, and as long
     as the points of each card come in order, the records agree with the chart.
    */
    method OnBandwidth(id: string, rep: string, data: seq<Datapoint>)
      requires Valid()
      modifies this, readData, writtenData
      ensures Valid() && orderly == (old(orderly) && InOrder(old(lastSent), id, data))
      ensures lastSent == SentAfter(old(lastSent), id, data)
      ensures data == [] ==>
                log == [] && streamDataProviders == old(streamDataProviders)[rep := Provider(id, None, None)]
                && readBefore == old(readBefore) + [old(readData)]
                && writtenBefore == old(writtenBefore) + [old(writtenData)]
      ensures data != [] ==>
                readData == old(readData) && writtenData == old(writtenData)
                && readBefore == old(readBefore) && writtenBefore == old(writtenBefore)
      ensures Guarded(old(streamDataProviders), id, rep, data) ==>
                log == old(log) && streamDataProviders == old(streamDataProviders)
      ensures data != [] && !Guarded(old(streamDataProviders), id, rep, data) ==>
                var p := Base(old(streamDataProviders), id, rep);
                log == old(log) + Added(rep, p, data)
                && streamDataProviders == old(streamDataProviders)[rep := FeedAll(rep, p, data).0]
                && streamDataProviders[rep].id == id
                && forall second ::
                     Value(Contents(readData.data), 1000 * second)
                     == Value(old(Contents(readData.data)), 1000 * second) + Sum(Added(rep, p, data), second).r
                     && Value(Contents(writtenData.data), 1000 * second)
                        == Value(old(Contents(writtenData.data)), 1000 * second) + Sum(Added(rep, p, data), second).w
      ensures data != [] && rep in old(streamDataProviders) ==>
                var p, second := old(streamDataProviders)[rep], Seconds(data[0].s);
                p.id != id && p.tss.Some? && second < p.tss.value + 15 ==>
                  streamDataProviders == old(streamDataProviders)
                  && readData.data == old(readData.data) && writtenData.data == old(writtenData.data)
      ensures |data| == 1 && Opens(old(streamDataProviders), id, rep, Seconds(data[0].s)) ==>
                var t := 1000 * Seconds(data[0].s);
                Value(Contents(readData.data), t) == Value(old(Contents(readData.data)), t) + data[0].r
                && Value(Contents(writtenData.data), t) == Value(old(Contents(writtenData.data)), t) + data[0].w
    {
      hide Charted, Contents, Sorted, AllRecorded, FeedAll, Seconds, InOrder, SentAfter, FillersAreZero, Value, Sum;
      ghost var wasOrderly, sent := orderly, SentAfter(lastSent, id, data);
      var sdp := Provider("", None, None);
      if |data| > 0 && rep in streamDataProviders {
        sdp := streamDataProviders[rep];
        if sdp.id != id && sdp.tss.Some? && sdp.tss.value > Seconds(data[0].s) - 15 {
          Remember(id, rep, data, log, streamDataProviders);
          return;
        }
      }
      sdp := sdp.(id := id);
      if data == [] {
        Remember(id, rep, data, [], streamDataProviders[rep := sdp]);
        PlaceNowhere();
        streamDataProviders := streamDataProviders[rep := sdp];
        return;
      }
      ghost var p := sdp;
      ghost var read, written := Contents(readData.data), Contents(writtenData.data);
      Remember(id, rep, data, log + Added(rep, p, data), streamDataProviders[rep := FeedAll(rep, p, data).0]);
      var tss;
      sdp, tss := FeedPoints(rep, sdp, data);
      tss := tss + 1;
      var filler := Entry(rep, tss, Traffic(0, 0), true);
      Place(filler, log);
      log := log + [filler];
      assert log == old(log) + Added(rep, p, data);
      streamDataProviders := streamDataProviders[rep := sdp];
      FeedAllOf(rep, p, data);
      EventGrows(read, written, old(log), Contents(readData.data), Contents(writtenData.data), rep, p, data);
    }

    // The ghost part of the handler: what will be known of the records after the event.
    ghost method Remember(id: string, rep: string, data: seq<Datapoint>, newLog: seq<Entry>,
                          newProviders: map<string, Provider>)
      requires Valid()
      requires if Guarded(streamDataProviders, id, rep, data) then newLog == log && newProviders == streamDataProviders
               else if data == [] then
                 newLog == [] && newProviders == streamDataProviders[rep := Provider(id, None, None)]
               else var p := Base(streamDataProviders, id, rep);
                    newLog == log + Added(rep, p, data)
                    && newProviders == streamDataProviders[rep := FeedAll(rep, p, data).0]
      modifies this`orderly, this`lastSent
      ensures orderly == (old(orderly) && InOrder(old(lastSent), id, data))
              && lastSent == SentAfter(old(lastSent), id, data)
      ensures FillersAreZero(newLog) && (orderly ==> AllRecorded(newLog, newProviders, lastSent))
    {
      hide Charted, Contents, Sorted, AllRecorded, FeedAll, InOrder, Seconds, Added;
      var was := lastSent;
      orderly, lastSent := orderly && InOrder(lastSent, id, data), SentAfter(lastSent, id, data);
      if Guarded(streamDataProviders, id, rep, data) {
        if orderly { GuardedKeepsRecords(log, streamDataProviders, was, id, rep, data); }
      } else if data == [] {
        if orderly { BrokenKeepsRecords(log, streamDataProviders, was, id, rep); }
      } else {
        AddedFillers(log, rep, Base(streamDataProviders, id, rep), data);
        if orderly { AddedKeepsRecords(log, streamDataProviders, was, id, rep, data); }
      }
    }

    /**
     While the cards' points come in order, the value of a second is the sum over the relays
     of at most one datapoint each.
    */
    lemma ChartIsSumOverRelays(reps: seq<string>, second: int)
      requires Valid() && orderly && Distinct(reps)
      requires forall rep :: rep in streamDataProviders ==> rep in reps
      ensures OnePerSecond(log)
      ensures Value(Contents(readData.data), 1000 * second) == Total(log, reps, second).r
      ensures Value(Contents(writtenData.data), 1000 * second) == Total(log, reps, second).w
    {
      RecordedOnce(log, streamDataProviders, lastSent);
      SumIsTotal(log, reps, second);
    }
  }

  lemma GuardedKeepsRecords(log: seq<Entry>, providers: map<string, Provider>, lastSent: map<string, int>,
                            id: string, rep: string, data: seq<Datapoint>)
    requires AllRecorded(log, providers, lastSent) && data != [] && InOrder(lastSent, id, data)
    ensures AllRecorded(log, providers, SentAfter(lastSent, id, data))
  {
    var sent := SentAfter(lastSent, id, data);
    forall other: string | other in providers ensures Recorded(log, other, providers[other], sent) {
      assert Recorded(log, other, providers[other], lastSent);
      assert id in lastSent ==> lastSent[id] <= Seconds(data[0].s) <= sent[id];
    }
  }
}
