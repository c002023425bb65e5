/**
 Tor's runlevel events and the clients of a node's log: which levels Tor has to send, who
 gets them, and the buffer in which each client finds them.
*/
module Logging {
  import opened Collections
  import opened Strings

  datatype Level = DEBUG | INFO | NOTICE | WARNING | ERROR

  // The filters of all clients, and the clients of each level.
  type FilterMap = map<string, map<Level, bool>>
  type SessionLists = map<Level, seq<string>>

  type Name = s: string | s != "" witness "tor"
  datatype Record = Record(msg: string, sourceTime: int, levelname: Name, source: Name)

  // ---- the buffer of one client

  // The last n elements.
  function Last<T>(s: seq<T>, n: nat): (r: seq<T>)
    ensures |r| == if |s| <= n then |s| else n
  {
    if |s| <= n then s else s[|s| - n..]
  }

  // One message, how often it came in a row, and the data of its first record.
  datatype Group = Group(s: int, l: char, m: string, t: char, c: nat)

  function First(r: Record): Group
  {
    Group(r.sourceTime, r.levelname[0], Strip(r.msg), r.source[0], 1)
  }

  // The messages that a list of groups stands for.
  function Expand(groups: seq<Group>): seq<string>
  {
    if groups == [] then []
    else Expand(groups[..|groups| - 1]) + seq(groups[|groups| - 1].c, _ => groups[|groups| - 1].m)
  }

  function Messages(records: seq<Record>): seq<string>
  {
    seq(|records|, i requires 0 <= i < |records| => Strip(records[i].msg))
  }

  // How many records come before group k.
  function Before(groups: seq<Group>, k: nat): nat
    requires k <= |groups|
  {
    if k == 0 then 0 else Before(groups, k - 1) + groups[k - 1].c
  }

  /** The run-length form of a list of records. */
  ghost predicate IsRunLength(groups: seq<Group>, records: seq<Record>)
  {
    Expand(groups) == Messages(records)
    && Before(groups, |groups|) == |records|
    && (forall k :: 0 <= k < |groups| - 1 ==> groups[k].m != groups[k + 1].m)
    && (forall k :: 0 <= k < |groups| ==> StartsAt(groups, records, k))
  }

  // Group k is not empty and carries the data of its earliest record.
  ghost predicate StartsAt(groups: seq<Group>, records: seq<Record>, k: nat)
    requires k < |groups|
  {
    groups[k].c > 0
    && Before(groups, k) < |records|
    && groups[k].(c := 1) == First(records[Before(groups, k)])
  }

  lemma {:induction false} BeforeSame(g: seq<Group>, h: seq<Group>, k: nat)
    requires k <= |g| && k <= |h| && g[..k] == h[..k]
    ensures Before(g, k) == Before(h, k)
  {
    if k != 0 {
      assert g[..k][..k - 1] == g[..k - 1] && h[..k][..k - 1] == h[..k - 1];
      assert g[k - 1] == g[..k][k - 1] && h[k - 1] == h[..k][k - 1];
      BeforeSame(g, h, k - 1);
    }
  }

  lemma MessagesSnoc(records: seq<Record>, r: Record)
    ensures Messages(records + [r]) == Messages(records) + [Strip(r.msg)]
  {
  }

  lemma NothingIsRunLength()
    ensures IsRunLength([], [])
  {
  }

  // One more record of the same message.
  lemma Repeated(init: seq<Group>, last: Group, records: seq<Record>, r: Record)
    requires IsRunLength(init + [last], records) && last.m == Strip(r.msg)
    ensures IsRunLength(init + [last.(c := last.c + 1)], records + [r])
  {
    var g, h := init + [last], init + [last.(c := last.c + 1)];
    var k := |init|;
    MessagesSnoc(records, r);
    assert g[..k] == init && h[..k] == init;
    assert seq(last.c + 1, _ => last.m) == seq(last.c, _ => last.m) + [last.m];
    BeforeSame(g, h, k);
    forall j | 0 <= j < |h| ensures StartsAt(h, records + [r], j) {
      assert g[..j] == h[..j];
      BeforeSame(g, h, j);
      assert StartsAt(g, records, j);
    }
    forall j | 0 <= j < |h| - 1 ensures h[j].m != h[j + 1].m { assert g[j].m != g[j + 1].m; }
  }

  // A record of another message.
  lemma Changed(groups: seq<Group>, records: seq<Record>, r: Record)
    requires IsRunLength(groups, records) && (groups != [] ==> groups[|groups| - 1].m != Strip(r.msg))
    ensures IsRunLength(groups + [First(r)], records + [r])
  {
    var h, k := groups + [First(r)], |groups|;
    MessagesSnoc(records, r);
    assert h[..k] == groups[..k] == groups;
    assert seq(1, _ => First(r).m) == [First(r).m];
    BeforeSame(groups, h, k);
    forall j | 0 <= j < |h| ensures StartsAt(h, records + [r], j) {
      if j < k {
        assert groups[..j] == h[..j];
        BeforeSame(groups, h, j);
        assert StartsAt(groups, records, j);
      }
    }
  }

  // What the groups say of the records, group by group.

  lemma {:induction false} ExpandAt(groups: seq<Group>, k: nat, j: nat)
    requires k < |groups| && Before(groups, k) <= j < Before(groups, k) + groups[k].c
    ensures |Expand(groups)| == Before(groups, |groups|) && j < |Expand(groups)| && Expand(groups)[j] == groups[k].m
  {
    var n := |groups| - 1;
    var init := groups[..n];
    assert init[..n] == groups[..n];
    BeforeSame(init, groups, n);
    ExpandLength(init);
    if k < n {
      assert init[..k] == groups[..k];
      BeforeSame(init, groups, k);
      ExpandAt(init, k, j);
    }
  }

  lemma {:induction false} ExpandLength(groups: seq<Group>)
    ensures |Expand(groups)| == Before(groups, |groups|)
  {
    if groups != [] {
      var n := |groups| - 1;
      assert groups[..n][..n] == groups[..n];
      BeforeSame(groups[..n], groups, n);
      ExpandLength(groups[..n]);
    }
  }

  lemma {:induction false} BeforeGrows(groups: seq<Group>, k: nat, n: nat)
    requires k < n <= |groups|
    ensures Before(groups, k) + groups[k].c <= Before(groups, n)
  {
    if k < n - 1 { BeforeGrows(groups, k, n - 1); }
  }

  // Group k stands for the records from here on, as many as it counts.
  ghost predicate StandsFor(group: Group, records: seq<Record>, from: nat)
  {
    0 < group.c && from + group.c <= |records|
    && (forall j :: from <= j < from + group.c ==> Strip(records[j].msg) == group.m)
    && group.s == records[from].sourceTime && group.l == records[from].levelname[0]
    && group.t == records[from].source[0]
  }

  /** Each group stands for records in a row with one message, and the groups for all records. */
  lemma GroupsStand(groups: seq<Group>, records: seq<Record>)
    requires IsRunLength(groups, records)
    ensures forall k :: 0 <= k < |groups| ==> StandsFor(groups[k], records, Before(groups, k))
    ensures Before(groups, |groups|) == |records|
    ensures forall k :: 0 <= k < |groups| - 1 ==> groups[k].m != groups[k + 1].m
  {
    hide Expand, Before, Strip;
    forall k | 0 <= k < |groups| ensures StandsFor(groups[k], records, Before(groups, k)) {
      assert StartsAt(groups, records, k);
      BeforeGrows(groups, k, |groups|);
      forall j | Before(groups, k) <= j < Before(groups, k) + groups[k].c ensures Strip(records[j].msg) == groups[k].m {
        ExpandAt(groups, k, j);
        assert Messages(records)[j] == Strip(records[j].msg);
      }
    }
  }

  lemma {:induction false} CountsUp(groups: seq<Group>, n: nat)
    requires n <= |groups| && forall k :: 0 <= k < n ==> groups[k].c > 0
    ensures n <= Before(groups, n)
  {
    if n != 0 { CountsUp(groups, n - 1); }
  }

  lemma OneGroup(groups: seq<Group>, r: Record)
    requires IsRunLength(groups, [r])
    ensures groups == [Group(r.sourceTime, r.levelname[0], Strip(r.msg), r.source[0], 1)]
  {
    hide Strip;
    GroupsStand(groups, [r]);
    CountsUp(groups, |groups|);
    assert Before(groups, 0) == 0;
    assert groups != [];
    assert StandsFor(groups[0], [r], 0);
  }

  // What `flush_to_target` hands over; 0 is no limit.
  function HandedOver(buffer: seq<Record>, limit: nat): (r: seq<Record>)
    ensures limit == 0 ==> r == buffer
    ensures limit != 0 ==> r <= buffer && |r| == if |buffer| <= limit then |buffer| else limit + 1
  {
    if limit == 0 || |buffer| <= limit then buffer else buffer[..limit + 1]
  }

  class EventHandler {
    const capacity: nat
    const clearAtFlush: bool
    var buffer: seq<Record>
    var levels: map<Level, bool>
    ghost var emitted: seq<Record>   // since the last flush that cleared

    ghost predicate Valid()
      reads this
    {
      buffer == Last(emitted, capacity)
    }

    constructor (capacity: nat, clearAtFlush: bool)
      ensures this.capacity == capacity && this.clearAtFlush == clearAtFlush
      ensures Valid() && emitted == [] && levels == map[]
    {
      this.capacity, this.clearAtFlush := capacity, clearAtFlush;
      buffer, levels := [], map[];
      emitted := [];
    }

    // The filter for a level.
    predicate On(level: Level)
      reads this`levels
    {
      level in levels && levels[level]
    }

    // True if the setting is not what it was; a level never set counts as different.
    method Switch(level: Level, status: bool) returns (changed: bool)
      modifies this`levels
      ensures levels == old(levels)[level := status]
      ensures changed <==> level !in old(levels) || old(levels)[level] != status
    {
      changed := level !in levels || levels[level] != status;
      levels := levels[level := status];
    }

    /** The buffer holds the last `capacity` records. */
    method Emit(record: Record)
      requires Valid()
      modifies this`buffer, this`emitted
      ensures Valid() && emitted == old(emitted) + [record]
      ensures |emitted| <= capacity ==> buffer == emitted
      ensures |emitted| > capacity ==> buffer == emitted[|emitted| - capacity..]
      ensures capacity > 0 ==> buffer != [] && buffer[|buffer| - 1] == record
      ensures |buffer| <= capacity
    {
      emitted := emitted + [record];
      buffer := Last(buffer + [record], capacity);
      LastSnoc(old(emitted), record, capacity);
    }

    // A record passes the filter, or is dropped.
    method Handle(level: Level, record: Record)
      requires Valid()
      modifies this`buffer, this`emitted
      ensures Valid() && emitted == if On(level) then old(emitted) + [record] else old(emitted)
    {
      if On(level) {
        Emit(record);
      }
    }

    // Ends a flush.
    method Clear()
      requires Valid()
      modifies this`buffer, this`emitted
      ensures Valid()
      ensures buffer == (if clearAtFlush then [] else old(buffer))
              && emitted == (if clearAtFlush then [] else old(emitted))
    {
      if clearAtFlush {
        buffer, emitted := [], [];
      }
    }

    /** The buffered records in run-length form. */
    method Flush() returns (retval: seq<Group>)
      requires Valid()
      modifies this`buffer, this`emitted
      ensures Valid() && IsRunLength(retval, old(buffer))
      ensures forall k :: 0 <= k < |retval| ==> StandsFor(retval[k], old(buffer), Before(retval, k))
      ensures Before(retval, |retval|) == |old(buffer)|
              && forall k :: 0 <= k < |retval| - 1 ==> retval[k].m != retval[k + 1].m
      ensures |old(buffer)| == 1 ==>
                var r := old(buffer)[0];
                retval == [Group(r.sourceTime, r.levelname[0], Strip(r.msg), r.source[0], 1)]
      ensures buffer == (if clearAtFlush then [] else old(buffer))
              && emitted == (if clearAtFlush then [] else old(emitted))
    {
      hide IsRunLength, Strip, StandsFor, Before;
      retval := [];
      var last: Option<Group> := None;
      var i := 0;
      NothingIsRunLength();
      while i < |buffer|
        invariant 0 <= i <= |buffer| && buffer == old(buffer) && emitted == old(emitted)
        invariant last.None? ==> i == 0 && retval == []
        invariant IsRunLength(if last.Some? then retval + [last.value] else retval, buffer[..i])
      {
        var record := buffer[i];
        assert buffer[..i + 1] == buffer[..i] + [record];
        i := i + 1;
        var msg := Strip(record.msg);
        if last.Some? {
          if last.value.m == msg {
            Repeated(retval, last.value, buffer[..i - 1], record);
            last := Some(last.value.(c := last.value.c + 1));
            continue;
          }
          retval := retval + [last.value];
        }
        Changed(retval, buffer[..i - 1], record);
        last := Some(Group(record.sourceTime, record.levelname[0], msg, record.source[0], 1));
      }
      assert buffer[..|buffer|] == buffer;
      if last.Some? {
        retval := retval + [last.value];
      }
      GroupsStand(retval, buffer);
      if |buffer| == 1 {
        assert buffer == [buffer[0]];
        OneGroup(retval, buffer[0]);
      }
      Clear();
    }

    /** Hands the buffered records to another handler; with a limit, one more than the limit. */
    method FlushToTarget(target: EventHandler, limit: nat)
      requires Valid() && target.Valid() && target != this
      modifies this`buffer, this`emitted, target`buffer, target`emitted
      ensures Valid() && target.Valid()
      ensures target.emitted == old(target.emitted) + HandedOver(old(buffer), limit)
      ensures buffer == (if clearAtFlush then [] else old(buffer))
              && emitted == (if clearAtFlush then [] else old(emitted))
    {
      var count := 0;
      while count < |buffer|
        invariant 0 <= count <= |buffer| && buffer == old(buffer) && emitted == old(emitted)
        invariant limit == 0 || count <= limit
        invariant target.Valid() && target.emitted == old(target.emitted) + buffer[..count]
      {
        target.Emit(buffer[count]);
        assert buffer[..count + 1] == buffer[..count] + [buffer[count]];
        count := count + 1;
        if limit != 0 && count > limit { break; }
      }
      Clear();
    }
  }

  lemma LastSnoc<T>(s: seq<T>, x: T, n: nat)
    ensures Last(Last(s, n) + [x], n) == Last(s + [x], n)
  {
  }

  // ---- which levels are wanted

  // s.remove(x): without its first occurrence.
  function Removed(s: seq<string>, x: string): seq<string>
  {
    if s == [] then [] else if s[0] == x then s[1..] else [s[0]] + Removed(s[1..], x)
  }

  lemma {:induction false} RemovedOnce(s: seq<string>, x: string)
    requires Distinct(s)
    ensures Distinct(Removed(s, x)) && forall y :: y in Removed(s, x) <==> y in s && y != x
  {
    if s != [] {
      var t := s[1..];
      RemovedOnce(t, x);
      forall y ensures y in s <==> y == s[0] || y in t {
        if y in t { var i :| 0 <= i < |t| && t[i] == y; assert s[i + 1] == y; }
      }
      assert s[0] !in t;
    }
  }

  // The clients of the monitor for a level.
  function SessionsOf(m: SessionLists, level: Level): seq<string>
  {
    if level in m then m[level] else []
  }

  predicate IsOn(filters: FilterMap, id: string, level: Level)
  {
    id in filters && level in filters[id] && filters[id][level]
  }

  /** The monitor lists for a level, once each, exactly the clients whose filter is on. */
  ghost predicate Listed(filters: FilterMap, sessions: SessionLists)
  {
    forall level: Level ::
      Distinct(SessionsOf(sessions, level))
      && forall id :: id in SessionsOf(sessions, level) <==> IsOn(filters, id, level)
  }

  /** Tor has one listener for a level some client has on, and none for the others. */
  ghost predicate Listening(listeners: multiset<Level>, sessions: SessionLists)
  {
    forall level: Level :: listeners[level] == if SessionsOf(sessions, level) == [] then 0 else 1
  }

  // What the monitor's switch makes of its lists.
  ghost predicate Switched(before: SessionLists, after: SessionLists, id: string, level: Level, status: bool)
  {
    Distinct(SessionsOf(after, level))
    && (forall other :: other != level ==> SessionsOf(after, other) == SessionsOf(before, other))
    && (forall x :: x in SessionsOf(after, level) <==> if x == id then status else x in SessionsOf(before, level))
  }

  lemma SwitchedIsListed(filters: FilterMap, before: SessionLists, after: SessionLists,
                         id: string, level: Level, status: bool)
    requires Listed(filters, before) && id in filters && Switched(before, after, id, level, status)
    ensures Listed(filters[id := filters[id][level := status]], after)
  {
    var f := filters[id := filters[id][level := status]];
    forall l: Level ensures Distinct(SessionsOf(after, l)) && forall x :: x in SessionsOf(after, l) <==> IsOn(f, x, l) {
      assert forall x :: x in SessionsOf(before, l) <==> IsOn(filters, x, l);
    }
  }

  // A setting that is already there.
  lemma SettledIsListed(filters: FilterMap, sessions: SessionLists, id: string, level: Level)
    requires Listed(filters, sessions) && id in filters && level in filters[id]
    ensures Listed(filters[id := filters[id][level := filters[id][level]]], sessions)
  {
    assert filters[id][level := filters[id][level]] == filters[id];
    assert filters[id := filters[id]] == filters;
  }

  lemma SwitchedListening(listeners: multiset<Level>, before: SessionLists, after: SessionLists,
                          id: string, level: Level, status: bool)
    requires Listening(listeners, before) && Switched(before, after, id, level, status)
    ensures var now := if (SessionsOf(before, level) == []) == (SessionsOf(after, level) == []) then listeners
                       else if SessionsOf(after, level) != [] then listeners + multiset{level}
                           else listeners - multiset{level};
            Listening(now, after)
  {
  }

  // A client with an empty filter joins, or leaves.
  lemma OffIsNotListed(filters: FilterMap, sessions: SessionLists, id: string)
    requires Listed(filters, sessions) && forall level :: !IsOn(filters, id, level)
    ensures Listed(filters[id := map[]], sessions) && Listed(filters - {id}, sessions)
  {
    forall level: Level, x ensures IsOn(filters[id := map[]], x, level) <==> IsOn(filters, x, level) {}
    forall level: Level, x ensures IsOn(filters - {id}, x, level) <==> IsOn(filters, x, level) {}
    assert forall level: Level ::
        Distinct(SessionsOf(sessions, level))
        && forall x :: x in SessionsOf(sessions, level) <==> IsOn(filters, x, level);
  }

  class EventSwitchMonitor {
    var sessionsForLevel: SessionLists

    constructor ()
      ensures sessionsForLevel == map[]
    {
      sessionsForLevel := map[];
    }

    /** True when Tor's listener for the level has to be added or removed now. */
    method Switch(sessionId: string, level: Level, status: bool) returns (act: bool)
      requires Distinct(SessionsOf(sessionsForLevel, level))
      modifies this
      ensures Switched(old(sessionsForLevel), sessionsForLevel, sessionId, level, status)
      ensures act <==> (SessionsOf(old(sessionsForLevel), level) == []) != (SessionsOf(sessionsForLevel, level) == [])
      ensures act ==> status == (SessionsOf(sessionsForLevel, level) != [])
    {
      if level !in sessionsForLevel {
        sessionsForLevel := sessionsForLevel[level := []];
      }
      var sfl := sessionsForLevel[level];
      if status {
        if sessionId in sfl { return false; }
        sessionsForLevel := sessionsForLevel[level := sfl + [sessionId]];
        return |sfl + [sessionId]| == 1;
      }
      if sessionId !in sfl { return false; }
      RemovedOnce(sfl, sessionId);
      sessionsForLevel := sessionsForLevel[level := Removed(sfl, sessionId)];
      return |Removed(sfl, sessionId)| == 0;
    }
  }

  // Tor's side: how often a listener is registered for each level.
  class Controller {
    var listeners: multiset<Level>

    constructor ()
      ensures listeners == multiset{}
    {
      listeners := multiset{};
    }

    method AddEventListener(level: Level)
      modifies this
      ensures listeners == old(listeners) + multiset{level}
    {
      listeners := listeners + multiset{level};
    }

    method RemoveEventListener(level: Level)
      modifies this
      ensures listeners == old(listeners) - multiset{level}
    {
      listeners := listeners - multiset{level};
    }
  }

  function Normalized(name: string): Option<Level>
  {
    Spelled(Upper(name))
  }

  function Spelled(n: string): Option<Level>
  {
    if n == "DEBUG" then Some(DEBUG)
    else if n == "INFO" then Some(INFO)
    else if n == "NOTICE" then Some(NOTICE)
    else if n == "WARNING" || n == "WARN" then Some(WARNING)
    else if n == "ERROR" || n == "ERR" then Some(ERROR)
    else None
  }

  function Upper(s: string): string
  {
    if s == "" then "" else [if 'a' <= s[0] <= 'z' then ((s[0] as int) - 32) as char else s[0]] + Upper(s[1..])
  }

  // ---- the manager

  datatype Added = AddedClient | NoOwnClient   // NoOwnClient: Python raises KeyError

  const DEFAULTS: seq<(string, bool)> :=
    [("DEBUG", false), ("INFO", false), ("NOTICE", true), ("WARNING", true), ("ERROR", true)]

  const ALL_OFF: seq<(string, bool)> :=
    [("DEBUG", false), ("INFO", false), ("NOTICE", false), ("WARNING", false), ("ERROR", false)]

  // The filter after a list of settings; unknown names are skipped.
  function Applied(m: map<Level, bool>, settings: seq<(string, bool)>): map<Level, bool>
  {
    if settings == [] then m
    else
      var (name, status) := settings[|settings| - 1];
      var before := Applied(m, settings[..|settings| - 1]);
      if Normalized(name).Some? then before[Normalized(name).value := status] else before
  }

  // No two clients share a handler, and every handler's buffer is in order.
  ghost predicate Separate(clients: map<string, EventHandler>)
    reads clients.Values
  {
    (forall a, b :: a in clients && b in clients && a != b ==> clients[a] != clients[b])
    && forall id :: id in clients ==> clients[id].Valid()
  }

  // Each client's filter, and each client's buffer and the records it stands for.

  ghost function FiltersOf(clients: map<string, EventHandler>): FilterMap
    reads clients.Values
  {
    map id | id in clients :: clients[id].levels
  }

  ghost function BuffersOf(clients: map<string, EventHandler>): map<string, (seq<Record>, seq<Record>)>
    reads clients.Values
  {
    map id | id in clients :: (clients[id].buffer, clients[id].emitted)
  }

  lemma JoinSeparate(clients: map<string, EventHandler>, id: string, mh: EventHandler)
    requires Separate(clients) && mh.Valid() && id !in clients && mh !in clients.Values
    ensures Separate(clients[id := mh]) && clients[id := mh].Values == clients.Values + {mh}
  {
    var all := clients[id := mh];
    forall a, b | a in all && b in all && a != b ensures all[a] != all[b] {
      if a == id { assert clients[b] in clients.Values; }
      if b == id { assert clients[a] in clients.Values; }
    }
    forall h ensures h in all.Values <==> h in clients.Values || h == mh {
      if h in clients.Values { var x :| x in clients && clients[x] == h; assert all[x] == h; }
      if h == mh { assert all[id] == h; }
    }
  }

  lemma JoinState(clients: map<string, EventHandler>, id: string, mh: EventHandler)
    requires id !in clients
    ensures FiltersOf(clients[id := mh]) == FiltersOf(clients)[id := mh.levels]
    ensures BuffersOf(clients[id := mh]) == BuffersOf(clients)[id := (mh.buffer, mh.emitted)]
  {
  }

  lemma FilterAt(clients: map<string, EventHandler>, id: string)
    requires id in clients
    ensures id in FiltersOf(clients) && FiltersOf(clients)[id] == clients[id].levels
  {
  }

  lemma FiltersUpdated(clients: map<string, EventHandler>, before: FilterMap, id: string, f: map<Level, bool>)
    requires id in clients && before.Keys == clients.Keys && clients[id].levels == f
    requires forall x :: x in clients && x != id ==> clients[x].levels == before[x]
    ensures FiltersOf(clients) == before[id := f]
  {
  }

  type State = map<string, (seq<Record>, seq<Record>)>

  // The buffer of a client, and what it stands for, when a record has come by.
  ghost function Received(before: State, clients: map<string, EventHandler>, filters: FilterMap,
                          level: Level, record: Record, id: string): (seq<Record>, seq<Record>)
    requires id in before && id in clients
  {
    if !IsOn(filters, id, level) then before[id]
    else
      var emitted := before[id].1 + [record];
      (Last(emitted, clients[id].capacity), emitted)
  }

  ghost function Delivered(before: State, clients: map<string, EventHandler>, filters: FilterMap,
                           level: Level, record: Record, done: set<string>): State
    requires before.Keys == clients.Keys
  {
    map id | id in before :: if id in done then Received(before, clients, filters, level, record, id) else before[id]
  }

  lemma NoneDelivered(before: State, clients: map<string, EventHandler>, filters: FilterMap,
                      level: Level, record: Record)
    requires before.Keys == clients.Keys
    ensures clients.Keys - clients.Keys == {}
    ensures Delivered(before, clients, filters, level, record, {}) == before
  {
  }

  lemma OneDelivered(before: State, clients: map<string, EventHandler>, filters: FilterMap,
                     level: Level, record: Record, done: set<string>, id: string)
    requires before.Keys == clients.Keys && id in before && id !in done
    ensures var now := Delivered(before, clients, filters, level, record, done);
            now.Keys == before.Keys
            && var r := Received(before, clients, filters, level, record, id);
               Received(now, clients, filters, level, record, id) == r
               && Delivered(before, clients, filters, level, record, done + {id}) == now[id := r]
  {
  }

  lemma AllDelivered(before: State, clients: map<string, EventHandler>, filters: FilterMap,
                     sessions: SessionLists, level: Level, record: Record)
    requires before.Keys == clients.Keys && Listed(filters, sessions)
    ensures var now := Delivered(before, clients, filters, level, record, clients.Keys - {});
            now.Keys == before.Keys
            && forall id :: id in now ==>
                 now[id].1 == before[id].1 + if id in SessionsOf(sessions, level) then [record] else []
  {
    ListedOnce(filters, sessions, level);
    hide Listed, SessionsOf, IsOn;
    var now := Delivered(before, clients, filters, level, record, clients.Keys - {});
    forall id | id in now
      ensures now[id].1 == before[id].1 + if id in SessionsOf(sessions, level) then [record] else []
    {
      assert before[id].1 + [] == before[id].1;
    }
  }

  lemma BuffersUpdated(clients: map<string, EventHandler>, before: State, id: string, b: (seq<Record>, seq<Record>))
    requires id in clients && before.Keys == clients.Keys && (clients[id].buffer, clients[id].emitted) == b
    requires forall x :: x in clients && x != id ==> (clients[x].buffer, clients[x].emitted) == before[x]
    ensures BuffersOf(clients) == before[id := b]
  {
  }

  // The buffers when the records of `own` have gone to a client.
  ghost function Preserved(b: State, id: string, capacity: nat, own: string, clearAtFlush: bool): State
    requires id in b && own in b
  {
    var emitted := b[id].1 + b[own].0;
    b[id := (Last(emitted, capacity), emitted)][own := if clearAtFlush then ([], []) else b[own]]
  }

  lemma BuffersUpdatedTwice(clients: map<string, EventHandler>, before: State, id: string,
                            b: (seq<Record>, seq<Record>),
                            other: string, o: (seq<Record>, seq<Record>))
    requires id in clients && other in clients && id != other && before.Keys == clients.Keys
    requires (clients[id].buffer, clients[id].emitted) == b && (clients[other].buffer, clients[other].emitted) == o
    requires forall x :: x in clients && x != id && x != other ==> (clients[x].buffer, clients[x].emitted) == before[x]
    ensures BuffersOf(clients) == before[id := b][other := o]
  {
  }

  class LoggingManager {
    const selfId: string
    const monitor: EventSwitchMonitor
    var tor: Controller?
    var clients: map<string, EventHandler>

    ghost predicate Handlers()
      reads this, clients.Values
    {
      Separate(clients)
    }

    ghost function Filters(): FilterMap
      reads this, clients.Values
    {
      FiltersOf(clients)
    }

    ghost function Buffers(): map<string, (seq<Record>, seq<Record>)>
      reads this, clients.Values
    {
      BuffersOf(clients)
    }

    ghost predicate Valid()
      reads this, monitor, tor, clients.Values
    {
      Handlers()
      && Listed(Filters(), monitor.sessionsForLevel)
      && (tor != null ==> Listening(tor.listeners, monitor.sessionsForLevel))
    }

    /** Tor has a listener for a level, and only one, exactly when some client's filter has the level on. */
    lemma TorListens(level: Level)
      requires Valid() && tor != null
      ensures tor.listeners[level] <= 1
      ensures tor.listeners[level] == 1
              <==> exists id :: id in clients && level in clients[id].levels && clients[id].levels[level]
    {
      var sessions := monitor.sessionsForLevel;
      ListedOnce(Filters(), sessions, level);
      SomeMember(SessionsOf(sessions, level));
      assert forall id :: IsOn(Filters(), id, level)
                          <==> id in clients && level in clients[id].levels && clients[id].levels[level];
    }

    /** Every client's buffer holds the newest of its records, up to its capacity. */
    lemma BuffersHoldNewest(id: string)
      requires Valid() && id in clients
      ensures id in Buffers()
              && var (buffer, emitted), n := Buffers()[id], clients[id].capacity;
                 if |emitted| <= n then buffer == emitted else buffer == emitted[|emitted| - n..]
    {
      hide Listed, Listening, FiltersOf;
    }

    // `_switch`: passes a change on to Tor, if there is one.
    method Pass(level: Level, status: bool)
      modifies tor
      ensures tor != null ==>
                tor.listeners
                == if status then old(tor.listeners) + multiset{level} else old(tor.listeners) - multiset{level}
    {
      if tor == null { return; }
      if status {
        tor.AddEventListener(level);
      } else {
        tor.RemoveEventListener(level);
      }
    }

    // The handler's part of `switch`.
    method SetFilter(sessionId: string, level: Level, status: bool) returns (changed: bool)
      requires Handlers() && sessionId in clients
      modifies clients[sessionId]
      ensures Handlers() && Buffers() == old(Buffers())
      ensures Filters() == old(Filters())[sessionId := old(Filters())[sessionId][level := status]]
      ensures changed <==> level !in old(Filters())[sessionId] || old(Filters())[sessionId][level] != status
    {
      var mh := clients[sessionId];
      ghost var before := Filters();
      changed := mh.Switch(level, status);
      FiltersUpdated(clients, before, sessionId, before[sessionId][level := status]);
    }

    // The monitor's part, and Tor's.
    method SetListener(sessionId: string, level: Level, status: bool)
      requires Distinct(SessionsOf(monitor.sessionsForLevel, level))
      requires tor != null ==> Listening(tor.listeners, monitor.sessionsForLevel)
      modifies monitor, tor
      ensures Switched(old(monitor.sessionsForLevel), monitor.sessionsForLevel, sessionId, level, status)
      ensures tor != null ==> Listening(tor.listeners, monitor.sessionsForLevel)
    {
      hide Listening, Switched;
      ghost var sessions := monitor.sessionsForLevel;
      var act := monitor.Switch(sessionId, level, status);
      if tor != null {
        SwitchedListening(tor.listeners, sessions, monitor.sessionsForLevel, sessionId, level, status);
      }
      if act {
        Pass(level, status);
      }
    }

    // `switch` behind the two lookups.
    method SwitchLevel(sessionId: string, level: Level, status: bool)
      requires Valid() && sessionId in clients
      modifies clients[sessionId], monitor, tor
      ensures Valid() && Buffers() == old(Buffers())
      ensures Filters() == old(Filters())[sessionId := old(Filters())[sessionId][level := status]]
    {
      hide Listed, Listening, Handlers, Switched;
      ghost var filters, sessions := Filters(), monitor.sessionsForLevel;
      ListedOnce(filters, sessions, level);
      var changed := SetFilter(sessionId, level, status);
      if changed {
        SetListener(sessionId, level, status);
        SwitchedIsListed(filters, sessions, monitor.sessionsForLevel, sessionId, level, status);
      } else {
        SettledIsListed(filters, sessions, sessionId, level);
      }
    }

    /** Sets a client's filter for a level; unknown names and unknown clients change nothing. */
    method Switch(sessionId: string, name: string, status: bool) returns (ok: bool)
      requires Valid()
      modifies clients.Values, monitor, tor
      ensures Valid() && Buffers() == old(Buffers())
      ensures ok <==> Normalized(name).Some? && sessionId in clients
      ensures Filters()
              == if ok then old(Filters())[sessionId := old(Filters())[sessionId][Normalized(name).value := status]]
                           else old(Filters())
    {
      hide Normalized, Listed, Listening, Handlers;
      var level := Normalized(name);
      if level.None? || sessionId !in clients { return false; }
      SwitchLevel(sessionId, level.value, status);
      return true;
    }

    // The loop over a list of settings.
    method ApplySettings(sessionId: string, settings: seq<(string, bool)>)
      requires Valid() && sessionId in clients
      modifies clients.Values, monitor, tor
      ensures Valid() && Buffers() == old(Buffers())
      ensures Filters() == old(Filters())[sessionId := Applied(old(Filters())[sessionId], settings)]
    {
      hide Normalized, Listed, Listening, Handlers, FiltersOf, BuffersOf, Applied;
      ghost var f := Filters();
      FilterAt(clients, sessionId);
      var i := 0;
      NoneApplied(f[sessionId], settings);
      assert f[sessionId := f[sessionId]] == f;
      while i < |settings|
        invariant 0 <= i <= |settings|
        invariant Valid() && Buffers() == old(Buffers())
        invariant Filters() == f[sessionId := Applied(f[sessionId], settings[..i])]
      {
        AppliedNext(f[sessionId], settings, i);
        var _ := Switch(sessionId, settings[i].0, settings[i].1);
        i := i + 1;
      }
      assert settings[..|settings|] == settings;
    }

    // Old clients keep their handlers; a new id has one as asked for.
    ghost predicate Joined(before: map<string, EventHandler>, id: string, capacity: nat, clearAtFlush: bool)
      reads this`clients
    {
      clients.Keys == before.Keys + {id}
      && (forall x :: x in before ==> clients[x] == before[x])
      && (id !in before ==> clients[id].capacity == capacity && clients[id].clearAtFlush == clearAtFlush)
    }

    // A handler for an id that has none.
    method NewClient(sessionId: string, capacity: nat, clearAtFlush: bool)
      requires Valid() && sessionId !in clients
      modifies this`clients
      ensures Valid() && fresh(clients.Values - old(clients.Values))
              && Joined(old(clients), sessionId, capacity, clearAtFlush)
      ensures Filters() == old(Filters())[sessionId := map[]]
      ensures Buffers() == old(Buffers())[sessionId := ([], [])]
    {
      hide Listed, Listening;
      ghost var f := Filters();
      OffIsNotListed(f, monitor.sessionsForLevel, sessionId);
      AddHandler(sessionId, capacity, clearAtFlush);
      assert Filters() == f[sessionId := map[]];
    }

    method AddHandler(sessionId: string, capacity: nat, clearAtFlush: bool)
      requires Handlers() && sessionId !in clients
      modifies this`clients
      ensures Handlers() && fresh(clients.Values - old(clients.Values))
              && Joined(old(clients), sessionId, capacity, clearAtFlush)
      ensures Filters() == old(Filters())[sessionId := map[]]
      ensures Buffers() == old(Buffers())[sessionId := ([], [])]
    {
      hide Separate, FiltersOf, BuffersOf;
      ghost var before := clients;
      var mh := new EventHandler(capacity, clearAtFlush);
      JoinSeparate(before, sessionId, mh);
      JoinState(before, sessionId, mh);
      clients := clients[sessionId := mh];
    }

    // The preserved records go to a client as well.
    method Preserve(sessionId: string)
      requires Handlers() && sessionId in clients && selfId in clients && sessionId != selfId
      modifies clients[sessionId], clients[selfId]
      ensures Handlers() && Filters() == old(Filters())
      ensures Buffers() == Preserved(old(Buffers()), sessionId, clients[sessionId].capacity, selfId,
              clients[selfId].clearAtFlush)
    {
      hide Last, HandedOver;
      ghost var f, b := Filters(), Buffers();
      var preserved, mh := clients[selfId], clients[sessionId];
      assert mh != preserved;
      preserved.FlushToTarget(mh, 0);
      assert Filters() == f;
      BuffersUpdatedTwice(clients, b, sessionId, (mh.buffer, mh.emitted), selfId,
          (preserved.buffer, preserved.emitted));
    }

    // The handler of an id, which is new if the id is.
    method Enrol(sessionId: string, capacity: nat, clearAtFlush: bool)
      requires Valid()
      modifies this`clients
      ensures Valid() && fresh(clients.Values - old(clients.Values))
              && Joined(old(clients), sessionId, capacity, clearAtFlush)
      ensures var f := old(Filters());
              Filters() == f[sessionId := if sessionId in f then f[sessionId] else map[]]
      ensures var b := old(Buffers());
              Buffers() == b[sessionId := if sessionId in b then b[sessionId] else ([], [])]
    {
      hide Listed, Listening, Handlers, FiltersOf, BuffersOf;
      StateKeys(clients);
      if sessionId !in clients {
        NewClient(sessionId, capacity, clearAtFlush);
        StateKeys(clients);
      } else {
        assert Filters() == Filters()[sessionId := Filters()[sessionId]];
        assert Buffers() == Buffers()[sessionId := Buffers()[sessionId]];
      }
    }

    /**
     `add_client`: the filter is set as asked, on top of what it was; a client other than
     the manager's own also gets the preserved records.
    */
    method AddClient(sessionId: string, capacity: nat, clearAtFlush: bool, settings: seq<(string, bool)>)
      returns (r: Added)
      requires Valid()
      modifies this`clients, clients.Values, monitor, tor
      ensures Valid() && fresh(clients.Values - old(clients.Values))
              && Joined(old(clients), sessionId, capacity, clearAtFlush)
      ensures var f := if sessionId in old(Filters()) then old(Filters())[sessionId] else map[];
              Filters() == old(Filters())[sessionId := Applied(f, settings)]
      ensures r == NoOwnClient <==> sessionId != selfId && selfId !in old(Buffers())
      ensures Buffers().Keys == old(Buffers()).Keys + {sessionId}
      ensures var b := if sessionId in old(Buffers()) then old(Buffers())[sessionId].1 else [];
              Buffers()[sessionId].1
              == if sessionId != selfId && r == AddedClient then b + old(Buffers())[selfId].0 else b
      ensures forall id :: id in old(Buffers()) && id != sessionId && id != selfId ==>
              Buffers()[id] == old(Buffers())[id]
      ensures sessionId != selfId && r == AddedClient ==>
                selfId in clients
                && Buffers()[selfId] == if clients[selfId].clearAtFlush then ([], []) else old(Buffers())[selfId]
    {
      hide Normalized, Applied, Listed, Listening, Handlers, FiltersOf, BuffersOf;
      ghost var f0 := Filters();
      Enrol(sessionId, capacity, clearAtFlush);
      ghost var f1, b1 := Filters(), Buffers();
      ApplySettings(sessionId, settings);
      UpdatedTwice(f0, sessionId, f1[sessionId], Applied(f1[sessionId], settings));
      assert Filters() == f0[sessionId := Applied(f1[sessionId], settings)];
      assert Buffers() == b1;
      r := HandOver(sessionId);
    }

    // The end of `add_client`.
    method HandOver(sessionId: string) returns (r: Added)
      requires Valid() && sessionId in Buffers()
      modifies clients.Values
      ensures Valid() && Filters() == old(Filters()) && Buffers().Keys == old(Buffers()).Keys
      ensures r == NoOwnClient <==> sessionId != selfId && selfId !in old(Buffers())
      ensures Buffers()[sessionId].1 == old(Buffers())[sessionId].1
                 + if sessionId != selfId && r == AddedClient then old(Buffers())[selfId].0 else []
      ensures forall id :: id in old(Buffers()) && id != sessionId && id != selfId ==>
              Buffers()[id] == old(Buffers())[id]
      ensures sessionId != selfId && r == AddedClient ==>
                selfId in clients
                && Buffers()[selfId] == if clients[selfId].clearAtFlush then ([], []) else old(Buffers())[selfId]
    {
      hide Listed, Listening, Handlers, FiltersOf, BuffersOf;
      StateKeys(clients);
      if sessionId != selfId {
        if selfId !in clients { return NoOwnClient; }
        Preserve(sessionId);
      }
      return AddedClient;
    }

    /** A manager with its own client; each level is set as asked. */
    constructor (selfId: string, controller: Controller?, notice: bool, warn: bool, err: bool)
      requires controller != null ==> controller.listeners == multiset{}
      modifies controller
      ensures Valid() && this.selfId == selfId && tor == controller
      ensures fresh(monitor) && fresh(clients.Values) && clients.Keys == {selfId}
      ensures clients[selfId].capacity == 400 && !clients[selfId].clearAtFlush
      ensures Filters()
              == map[selfId := map[DEBUG := false, INFO := false, NOTICE := notice, WARNING := warn, ERROR := err]]
    {
      this.selfId := selfId;
      monitor := new EventSwitchMonitor();
      tor := controller;
      clients := map[];
      new;
      Nobody(tor);
      assert Valid();
      OwnClient(notice, warn, err);
    }

    method OwnClient(notice: bool, warn: bool, err: bool)
      requires Valid() && clients == map[]
      modifies this`clients, monitor, tor
      ensures Valid() && fresh(clients.Values) && clients.Keys == {selfId}
      ensures clients[selfId].capacity == 400 && !clients[selfId].clearAtFlush
      ensures Filters() == map[selfId := Chosen(notice, warn, err)]
    {
      hide Applied, Listed, Listening, Separate, FiltersOf, BuffersOf, Chosen;
      NoClients();
      assert Filters() == map[];
      DefaultFilter();
      var _ := AddClient(selfId, 400, false, DEFAULTS);
      ChosenOneByOne(notice, warn, err);
      assert Filters() == map[selfId := Chosen(true, true, true)];
      Choose(NOTICE, notice, Chosen(true, true, true));
      Choose(WARNING, warn, Chosen(notice, true, true));
      Choose(ERROR, err, Chosen(notice, warn, true));
    }

    // Switches a level of the manager's own client that is on by default.
    method Choose(level: Level, status: bool, ghost f: map<Level, bool>)
      requires Valid() && Filters() == map[selfId := f] && level in f && f[level]
      modifies clients.Values, monitor, tor
      ensures Valid() && Filters() == map[selfId := f[level := status]]
    {
      hide Listed, Listening, Separate, BuffersOf;
      StateKeys(clients);
      assert selfId in clients && clients.Keys == {selfId};
      if !status {
        SwitchLevel(selfId, level, status);
      } else {
        assert f[level := status] == f;
      }
    }

    // Every level off for one client, as before it is forgotten.
    method SwitchOff(sessionId: string)
      requires Valid() && sessionId in clients
      modifies clients.Values, monitor, tor
      ensures Valid() && Buffers() == old(Buffers())
      ensures Filters() == old(Filters())[sessionId := SILENT]
    {
      hide Applied, Listed, Listening, Separate, FiltersOf, BuffersOf;
      StateKeys(clients);
      AllOff(Filters()[sessionId]);
      ApplySettings(sessionId, ALL_OFF);
    }

    /** `remove_client`: forgets a client; Tor stops sending what only this client had on. */
    method RemoveClient(sessionId: string) returns (known: bool)
      requires Valid()
      modifies this`clients, clients.Values, monitor, tor
      ensures Valid() && known == (sessionId in old(clients))
      ensures clients == old(clients) - {sessionId}
      ensures Filters() == old(Filters()) - {sessionId} && Buffers() == old(Buffers()) - {sessionId}
    {
      hide Listed, Listening, Separate, FiltersOf, BuffersOf;
      StateKeys(clients);
      if sessionId !in clients {
        assert clients - {sessionId} == clients;
        Fewer(clients, sessionId);
        return false;
      }
      ghost var f := Filters();
      SwitchOff(sessionId);
      Gone(f, sessionId, SILENT);
      Forget(sessionId);
      return true;
    }

    method Forget(sessionId: string)
      requires Valid() && sessionId in Filters() && Filters()[sessionId] == SILENT
      modifies this`clients
      ensures Valid() && clients == old(clients) - {sessionId}
      ensures Filters() == old(Filters()) - {sessionId} && Buffers() == old(Buffers()) - {sessionId}
    {
      hide Listed, Listening, Separate, FiltersOf, BuffersOf;
      SilentIsNotListed(Filters(), monitor.sessionsForLevel, sessionId);
      Fewer(clients, sessionId);
      clients := clients - {sessionId};
    }

    // The loop of `shutdown`.
    method SwitchAllOff()
      requires Valid()
      modifies clients.Values, monitor, tor
      ensures Valid() && Filters() == Silenced(old(Filters()), clients.Keys)
    {
      hide Listed, Listening, Separate, FiltersOf, BuffersOf, Silenced;
      ghost var f := Filters();
      NoneSilenced(f);
      var left := clients.Keys;
      assert clients.Keys - left == {};
      while left != {}
        invariant Valid() && left <= clients.Keys
        invariant Filters() == Silenced(f, clients.Keys - left)
        decreases |left|
      {
        var id :| id in left;
        StateKeys(clients);
        OneSilenced(f, clients.Keys - left, id);
        SwitchOff(id);
        assert clients.Keys - left + {id} == clients.Keys - (left - {id});
        left := left - {id};
      }
      assert clients.Keys - {} == clients.Keys;
    }

    /** `shutdown`: no client is left, and Tor has no listener. */
    method Shutdown()
      requires Valid()
      modifies this`clients, clients.Values, monitor, tor
      ensures Valid() && clients == map[]
      ensures tor != null ==> tor.listeners == multiset{}
    {
      hide Listed, Listening, Separate, FiltersOf, BuffersOf, Silenced;
      ghost var f := Filters();
      StateKeys(clients);
      SwitchAllOff();
      AllSilenced(f);
      NobodyLeft(Filters(), monitor.sessionsForLevel, tor);
      NoClients();
      clients := map[];
    }

    method DeliverTo(id: string, level: Level, record: Record)
      requires Handlers() && id in clients
      modifies clients[id]
      ensures Handlers() && Filters() == old(Filters())
      ensures Buffers() == old(Buffers())[id := Received(old(Buffers()), clients, Filters(), level, record, id)]
    {
      ghost var f, b := Filters(), Buffers();
      ghost var after := Received(b, clients, f, level, record, id);
      clients[id].Handle(level, record);
      assert Filters() == f;
      assert (clients[id].buffer, clients[id].emitted) == after;
      BuffersUpdated(clients, b, id, after);
    }

    /** A record of a level goes to exactly the clients that have the level on, the ones that the monitor lists. */
    method Deliver(level: Level, record: Record)
      requires Valid()
      modifies clients.Values
      ensures Valid() && Filters() == old(Filters()) && Buffers().Keys == old(Buffers()).Keys
      ensures forall id :: id in Buffers() ==>
                Buffers()[id].1 == old(Buffers())[id].1
                                   + if id in SessionsOf(monitor.sessionsForLevel, level) then [record] else []
    {
      hide Listed, Listening, Separate, FiltersOf, BuffersOf, Delivered;
      ghost var f, b := Filters(), Buffers();
      StateKeys(clients);
      NoneDelivered(b, clients, f, level, record);
      var left := clients.Keys;
      while left != {}
        invariant left <= clients.Keys && Handlers() && Filters() == f
        invariant Buffers() == Delivered(b, clients, f, level, record, clients.Keys - left)
        decreases |left|
      {
        var id :| id in left;
        OneDelivered(b, clients, f, level, record, clients.Keys - left, id);
        DeliverTo(id, level, record);
        assert clients.Keys - left + {id} == clients.Keys - (left - {id});
        left := left - {id};
      }
      AllDelivered(b, clients, f, monitor.sessionsForLevel, level, record);
    }

    method FlushClient(id: string) returns (groups: seq<Group>)
      requires Handlers() && id in clients
      modifies clients[id]
      ensures Handlers() && Filters() == old(Filters()) && Buffers().Keys == old(Buffers()).Keys
      ensures IsRunLength(groups, old(Buffers())[id].0)
      ensures forall k :: 0 <= k < |groups| ==> StandsFor(groups[k], old(Buffers())[id].0, Before(groups, k))
      ensures Buffers()[id] == if clients[id].clearAtFlush then ([], []) else old(Buffers())[id]
      ensures forall x :: x in Buffers() && x != id ==> Buffers()[x] == old(Buffers())[x]
    {
      hide IsRunLength, Last, StandsFor, Before;
      ghost var f := Filters();
      groups := clients[id].Flush();
      assert Filters() == f;
    }

    /** `get_events`: what has been buffered for a client, in run-length form. */
    method GetEvents(sessionId: string) returns (r: Option<seq<Group>>)
      requires Valid()
      modifies clients.Values
      ensures Valid() && Filters() == old(Filters()) && Buffers().Keys == old(Buffers()).Keys
      ensures r.Some? <==> sessionId in Buffers()
      ensures r.Some? ==> IsRunLength(r.value, old(Buffers())[sessionId].0)
                          && forall k :: 0 <= k < |r.value| ==>
                               StandsFor(r.value[k], old(Buffers())[sessionId].0, Before(r.value, k))
      ensures r.Some? ==>
              Buffers()[sessionId] == if clients[sessionId].clearAtFlush then ([], []) else old(Buffers())[sessionId]
      ensures forall id :: id in Buffers() && id != sessionId ==> Buffers()[id] == old(Buffers())[id]
    {
      hide Listed, Listening, IsRunLength, Separate, FiltersOf, BuffersOf;
      StateKeys(clients);
      if sessionId !in clients { return None; }
      var groups := FlushClient(sessionId);
      return Some(groups);
    }

    /** `connect`: a fresh controller gets a listener for each level that some client has on. */
    method Connect(controller: Controller)
      requires Valid() && controller.listeners == multiset{}
      modifies this`tor, controller
      ensures Valid() && tor == controller
    {
      hide Listed, Separate, FiltersOf, Heard, Listening;
      NoneHeard(controller.listeners, monitor.sessionsForLevel);
      tor := controller;
      var left := monitor.sessionsForLevel.Keys;
      while left != {}
        invariant left <= monitor.sessionsForLevel.Keys && tor == controller
        invariant Heard(controller.listeners, monitor.sessionsForLevel, left)
        decreases |left|
      {
        var level :| level in left;
        OneHeard(controller.listeners, monitor.sessionsForLevel, left, level);
        Pass(level, |monitor.sessionsForLevel[level]| > 0);
        left := left - {level};
      }
      AllHeard(controller.listeners, monitor.sessionsForLevel);
    }
  }

  // Tor has one listener for a level some client has on, but none yet for those left.
  ghost predicate Heard(listeners: multiset<Level>, sessions: SessionLists, left: set<Level>)
  {
    forall level: Level :: listeners[level] == if level in left || SessionsOf(sessions, level) == [] then 0 else 1
  }

  lemma NoneHeard(listeners: multiset<Level>, sessions: SessionLists)
    requires listeners == multiset{}
    ensures Heard(listeners, sessions, sessions.Keys)
  {
  }

  lemma OneHeard(listeners: multiset<Level>, sessions: SessionLists, left: set<Level>, level: Level)
    requires Heard(listeners, sessions, left) && level in left && level in sessions
    ensures Heard(if |sessions[level]| > 0 then listeners + multiset{level} else listeners - multiset{level},
                  sessions, left - {level})
  {
  }

  lemma AllHeard(listeners: multiset<Level>, sessions: SessionLists)
    requires Heard(listeners, sessions, {})
    ensures Listening(listeners, sessions)
  {
  }

  ghost const SILENT: map<Level, bool> :=
    map[DEBUG := false, INFO := false, NOTICE := false, WARNING := false, ERROR := false]

  ghost function Chosen(notice: bool, warn: bool, err: bool): map<Level, bool>
  {
    map[DEBUG := false, INFO := false, NOTICE := notice, WARNING := warn, ERROR := err]
  }

  lemma ChosenOneByOne(notice: bool, warn: bool, err: bool)
    ensures var f := Chosen(true, true, true);
            NOTICE in f && f[NOTICE] && f[NOTICE := notice] == Chosen(notice, true, true)
    ensures var f := Chosen(notice, true, true);
            WARNING in f && f[WARNING] && f[WARNING := warn] == Chosen(notice, warn, true)
    ensures var f := Chosen(notice, warn, true);
            ERROR in f && f[ERROR] && f[ERROR := err] == Chosen(notice, warn, err)
  {
  }

  lemma UpdatedTwice<K, V>(m: map<K, V>, k: K, v: V, w: V)
    ensures m[k := v][k := w] == m[k := w]
  {
  }

  lemma Gone<K, V>(m: map<K, V>, k: K, v: V)
    ensures m[k := v] - {k} == m - {k}
  {
  }

  lemma AllOff(f: map<Level, bool>)
    ensures Applied(f, ALL_OFF) == SILENT
  {
    hide Applied, Normalized;
    Names();
    NoneApplied(f, ALL_OFF);
    AppliedNext(f, ALL_OFF, 0);
    AppliedNext(f, ALL_OFF, 1);
    AppliedNext(f, ALL_OFF, 2);
    AppliedNext(f, ALL_OFF, 3);
    AppliedNext(f, ALL_OFF, 4);
    assert ALL_OFF[..5] == ALL_OFF;
    forall l: Level ensures l in SILENT && l in Applied(f, ALL_OFF) {
      match l case DEBUG => case INFO => case NOTICE => case WARNING => case ERROR =>
    }
  }

  lemma SilentIsNotListed(filters: FilterMap, sessions: SessionLists, id: string)
    requires Listed(filters, sessions) && id in filters && filters[id] == SILENT
    ensures Listed(filters - {id}, sessions)
  {
    OffIsNotListed(filters, sessions, id);
  }

  // The filters when some clients have been switched off.
  ghost function Silenced(f: FilterMap, done: set<string>): FilterMap
  {
    map id | id in f :: if id in done then SILENT else f[id]
  }

  lemma NoneSilenced(f: FilterMap)
    ensures Silenced(f, {}) == f
  {
  }

  lemma OneSilenced(f: FilterMap, done: set<string>, id: string)
    ensures Silenced(f, done).Keys == f.Keys
    ensures id in f ==> Silenced(f, done + {id}) == Silenced(f, done)[id := SILENT]
  {
  }

  lemma AllSilenced(f: FilterMap)
    ensures forall id :: id in Silenced(f, f.Keys) ==> Silenced(f, f.Keys)[id] == SILENT
  {
  }

  lemma StateKeys(clients: map<string, EventHandler>)
    ensures FiltersOf(clients).Keys == clients.Keys && BuffersOf(clients).Keys == clients.Keys
  {
  }

  lemma NoClients()
    ensures Separate(map[]) && FiltersOf(map[]) == map[] && Listed(map[], map[])
  {
  }

  lemma Nobody(tor: Controller?)
    requires tor != null ==> tor.listeners == multiset{}
    ensures Separate(map[]) && FiltersOf(map[]) == map[] && Listed(map[], map[])
    ensures tor != null ==> Listening(tor.listeners, map[])
  {
  }

  lemma Fewer(clients: map<string, EventHandler>, id: string)
    requires Separate(clients)
    ensures Separate(clients - {id})
    ensures FiltersOf(clients - {id}) == FiltersOf(clients) - {id}
            && BuffersOf(clients - {id}) == BuffersOf(clients) - {id}
  {
  }

  lemma SomeMember(s: seq<string>)
    ensures s == [] || exists x :: x in s
  {
    if s != [] { assert s[0] in s; }
  }

  // With every filter off the monitor lists nobody and Tor has no listener.
  lemma NobodyLeft(filters: FilterMap, sessions: SessionLists, tor: Controller?)
    requires Listed(filters, sessions) && forall id :: id in filters ==> filters[id] == SILENT
    requires tor != null ==> Listening(tor.listeners, sessions)
    ensures Listed(map[], sessions) && (tor != null ==> tor.listeners == multiset{})
  {
    forall level: Level ensures SessionsOf(sessions, level) == [] {
      var s := SessionsOf(sessions, level);
      assert forall id :: id in s <==> IsOn(filters, id, level);
      SomeMember(s);
    }
    if tor != null {
      forall level: Level ensures tor.listeners[level] == 0 {}
    }
  }

  lemma DefaultFilter()
    ensures Applied(map[], DEFAULTS) == Chosen(true, true, true)
  {
    hide Applied, Normalized;
    Names();
    NoneApplied(map[], DEFAULTS);
    AppliedNext(map[], DEFAULTS, 0);
    AppliedNext(map[], DEFAULTS, 1);
    AppliedNext(map[], DEFAULTS, 2);
    AppliedNext(map[], DEFAULTS, 3);
    AppliedNext(map[], DEFAULTS, 4);
    assert DEFAULTS[..5] == DEFAULTS;
  }

  lemma Names()
    ensures Normalized("DEBUG") == Some(DEBUG) && Normalized("INFO") == Some(INFO)
            && Normalized("NOTICE") == Some(NOTICE)
    ensures Normalized("WARNING") == Some(WARNING) && Normalized("ERROR") == Some(ERROR)
  {
    hide Upper, Spelled;
    UpperIs("DEBUG"); UpperIs("INFO"); UpperIs("NOTICE"); UpperIs("WARNING"); UpperIs("ERROR");
    Spellings();
  }

  lemma {:induction false} UpperAt(s: string)
    ensures |Upper(s)| == |s|
    ensures forall i :: 0 <= i < |s| ==>
              if 'a' <= s[i] <= 'z' then Upper(s)[i] as int == s[i] as int - 32 else Upper(s)[i] == s[i]
  {
    if s != "" { UpperAt(s[1..]); }
  }

  lemma UpperAs(s: string, t: string)
    requires |s| == |t|
    requires forall i :: 0 <= i < |s| ==> 'a' <= s[i] <= 'z' && s[i] as int - 32 == t[i] as int
    ensures Upper(s) == t
  {
    UpperAt(s);
  }

  /** The short spellings, in any case, and no other name. */
  lemma NamesAreRead(name: string)
    ensures Normalized("WARN") == Normalized("warn") == Some(WARNING)
    ensures Normalized("ERR") == Normalized("err") == Some(ERROR)
    ensures Normalized("info") == Some(INFO)
    ensures Normalized(name).Some? ==> Upper(name) in {"DEBUG", "INFO", "NOTICE", "WARNING", "WARN", "ERROR", "ERR"}
  {
    hide Spelled, Upper;
    Spellings();
    UpperIs("WARN");
    UpperIs("ERR");
    UpperAs("warn", "WARN");
    UpperAs("err", "ERR");
    UpperAs("info", "INFO");
    NoOtherName(Upper(name));
  }

  lemma NoOtherName(n: string)
    ensures Spelled(n).Some? ==> n in {"DEBUG", "INFO", "NOTICE", "WARNING", "WARN", "ERROR", "ERR"}
  {
  }

  lemma Spellings()
    ensures Spelled("DEBUG") == Some(DEBUG) && Spelled("INFO") == Some(INFO) && Spelled("NOTICE") == Some(NOTICE)
    ensures Spelled("WARNING") == Some(WARNING) && Spelled("ERROR") == Some(ERROR)
    ensures Spelled("WARN") == Some(WARNING) && Spelled("ERR") == Some(ERROR)
  {
  }

  lemma {:induction false} UpperIs(s: string)
    requires forall i :: 0 <= i < |s| ==> !('a' <= s[i] <= 'z')
    ensures Upper(s) == s
  {
    if s != "" { UpperIs(s[1..]); }
  }

  lemma NoneApplied(m: map<Level, bool>, settings: seq<(string, bool)>)
    ensures Applied(m, settings[..0]) == m
  {
  }

  lemma AppliedNext(m: map<Level, bool>, settings: seq<(string, bool)>, i: nat)
    requires i < |settings|
    ensures Applied(m, settings[..i + 1])
         == var before := Applied(m, settings[..i]);
            if Normalized(settings[i].0).Some? then before[Normalized(settings[i].0).value := settings[i].1] else before
  {
    assert settings[..i + 1][..|settings[..i + 1]| - 1] == settings[..i];
  }

  lemma ListedOnce(filters: FilterMap, sessions: SessionLists, level: Level)
    requires Listed(filters, sessions)
    ensures Distinct(SessionsOf(sessions, level))
    ensures forall id :: id in SessionsOf(sessions, level) <==> IsOn(filters, id, level)
  {
  }
}
