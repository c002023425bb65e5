/**
 Counting Tor's open connections, circuits and streams: events are queued and only looked
 at when someone asks for the count; a status report starts the count anew.
*/
module Transportation {
  import opened Strings

  datatype Kind = Connections | Circuits | Streams

  function Marker(kind: Kind): string
  {
    match kind case Connections => "ORCONN" case Circuits => "CIRC" case Streams => "STREAM"
  }

  predicate Opens(kind: Kind, status: string)
  {
    match kind
    case Connections => status == "CONNECTED"
    case Circuits => status == "LAUNCHED" || status == "BUILT"
    case Streams => status == "SUCCEEDED"
  }

  predicate Closes(status: string) { status == "FAILED" || status == "CLOSED" }

  datatype Event = Opening(id: string) | Closing(id: string) | Other

  function EventOf(kind: Kind, line: string): Event
  {
    var words := Split(line, " ");
    if |words| < 3 || words[0] != Marker(kind) then Other
    else if Opens(kind, words[2]) then Opening(words[1])
    else if Closes(words[2]) then Closing(words[1])
    else Other
  }

  // ---- what a list of lines says

  function Processed(kind: Kind, tags: set<string>, line: string): set<string>
  {
    match EventOf(kind, line)
    case Opening(id) => tags + {id}
    case Closing(id) => tags - {id}
    case Other => tags
  }

  function Drained(kind: Kind, tags: set<string>, lines: seq<string>): set<string>
  {
    if lines == [] then tags else Processed(kind, Drained(kind, tags, lines[..|lines| - 1]), lines[|lines| - 1])
  }

  ghost predicate Mentioned(kind: Kind, lines: seq<string>, id: string)
  {
    exists i :: 0 <= i < |lines| && Mentions(kind, lines[i], id)
  }

  predicate Mentions(kind: Kind, line: string, id: string)
  {
    var e := EventOf(kind, line);
    !e.Other? && e.id == id
  }

  /** The last event of an id is an opening one. */
  ghost predicate LastOpens(kind: Kind, lines: seq<string>, id: string)
  {
    exists i :: 0 <= i < |lines| && EventOf(kind, lines[i]) == Opening(id)
             && forall j :: i < j < |lines| ==> !Mentions(kind, lines[j], id)
  }

  /** An id is in the set when its last event opened it, or when it has none and was in before. */
  lemma {:induction false} DrainedIsLast(kind: Kind, tags: set<string>, lines: seq<string>, id: string)
    ensures id in Drained(kind, tags, lines)
            <==> LastOpens(kind, lines, id) || (id in tags && !Mentioned(kind, lines, id))
  {
    hide EventOf;
    if lines != [] {
      var init, last := lines[..|lines| - 1], lines[|lines| - 1];
      DrainedIsLast(kind, tags, init, id);
      LastSnoc(kind, init, last, id);
      assert init + [last] == lines;
    }
  }

  lemma LastSnoc(kind: Kind, init: seq<string>, last: string, id: string)
    ensures LastOpens(kind, init + [last], id) <==>
              EventOf(kind, last) == Opening(id) || (LastOpens(kind, init, id) && !Mentions(kind, last, id))
    ensures Mentioned(kind, init + [last], id) <==> Mentioned(kind, init, id) || Mentions(kind, last, id)
  {
    hide EventOf;
    var lines := init + [last];
    assert forall i :: 0 <= i < |init| ==> lines[i] == init[i];
    assert lines[|init|] == last;
    if LastOpens(kind, init, id) && !Mentions(kind, last, id) {
      var i :| 0 <= i < |init| && EventOf(kind, init[i]) == Opening(id)
               && forall j :: i < j < |init| ==> !Mentions(kind, init[j], id);
      assert EventOf(kind, lines[i]) == Opening(id) && forall j :: i < j < |lines| ==> !Mentions(kind, lines[j], id);
    }
    if EventOf(kind, last) == Opening(id) {
      assert EventOf(kind, lines[|init|]) == Opening(id);
    }
    if Mentioned(kind, init, id) {
      var i :| 0 <= i < |init| && Mentions(kind, init[i], id);
      assert Mentions(kind, lines[i], id);
    }
    if Mentions(kind, last, id) { assert Mentions(kind, lines[|init|], id); }
  }

  lemma {:induction false} DrainedConcat(kind: Kind, tags: set<string>, a: seq<string>, b: seq<string>)
    ensures Drained(kind, tags, a + b) == Drained(kind, Drained(kind, tags, a), b)
  {
    hide Processed;
    if b == [] {
      assert a + b == a;
    } else {
      DrainedConcat(kind, tags, a, b[..|b| - 1]);
      assert (a + b)[..|a + b| - 1] == a + b[..|b| - 1];
    }
  }

  // ---- the states of a counter

  const MAXLEN := 1000

  datatype State = State(tags: set<string>, buffer: seq<string>, clearTags: bool)

  // deque.append with maxlen
  function Queued(buffer: seq<string>, lines: seq<string>): (r: seq<string>)
    ensures |buffer| <= MAXLEN ==> |r| <= MAXLEN
  {
    if lines == [] then buffer
    else
      var b := Queued(buffer, lines[..|lines| - 1]) + [lines[|lines| - 1]];
      if |b| > MAXLEN then b[1..] else b
  }

  function StatusLines(kind: Kind, status: string): seq<string>
  {
    var lines := Split(status, "\n");
    seq(|lines|, i requires 0 <= i < |lines| => Marker(kind) + " " + lines[i])
  }

  // What a reader would be told.
  function Reported(kind: Kind, s: State): set<string>
  {
    Drained(kind, if s.clearTags then {} else s.tags, s.buffer)
  }

  datatype Step = Push(line: string) | Rebase(status: string) | Read

  function After(kind: Kind, s: State, step: Step): State
  {
    match step
    case Push(line) => s.(buffer := Queued(s.buffer, [line]))
    case Rebase(status) => s.(buffer := Queued(s.buffer, StatusLines(kind, status)), clearTags := true)
    case Read => State(Reported(kind, s), [], false)
  }

  function Run(kind: Kind, s: State, steps: seq<Step>): State
  {
    if steps == [] then s else After(kind, Run(kind, s, steps[..|steps| - 1]), steps[|steps| - 1])
  }

  class Base {
    const kind: Kind
    var tags: set<string>
    var buffer: seq<string>
    var clearTags: bool

    ghost function Now(): State
      reads this
    {
      State(tags, buffer, clearTags)
    }

    constructor (kind: Kind)
      ensures this.kind == kind && Now() == State({}, [], false)
    {
      this.kind := kind;
      tags, buffer, clearTags := {}, [], false;
    }

    /** `count`: the lines queued since the last call are looked at now. */
    method Count() returns (count: nat)
      modifies this
      ensures count == |Reported(kind, old(Now()))|
      ensures Now() == After(kind, old(Now()), Read)
    {
      hide EventOf;
      if clearTags {
        tags := {};
        clearTags := false;
      }
      ghost var lines, start := buffer, tags;
      while buffer != []
        invariant |buffer| <= |lines| && buffer == lines[|lines| - |buffer|..] && !clearTags
        invariant tags == Drained(kind, start, lines[..|lines| - |buffer|])
        decreases |buffer|
      {
        ghost var i := |lines| - |buffer|;
        assert lines[..i + 1][..|lines[..i + 1]| - 1] == lines[..i];
        var line := buffer[0];
        buffer := buffer[1..];
        Process(line);
      }
      assert lines[..|lines|] == lines;
      return |tags|;
    }

    // The loop's body behind `popleft`, with `process` of the three kinds.
    method Process(line: string)
      modifies this`tags
      ensures tags == Processed(kind, old(tags), line)
    {
      hide Split;
      var event := Split(line, " ");
      if |event| >= 3 && event[0] == Marker(kind) {
        if Opens(kind, event[2]) {
          tags := tags + {event[1]};
        } else if Closes(event[2]) {
          tags := tags - {event[1]};
        }
      }
    }

    method Append(line: string)
      modifies this`buffer
      ensures buffer == Queued(old(buffer), [line])
    {
      buffer := buffer + [line];
      if |buffer| > MAXLEN { buffer := buffer[1..]; }
      assert [line][..0] == [];
    }

    method Push(line: string)
      modifies this
      ensures Now() == After(kind, old(Now()), Step.Push(line))
    {
      Append(line);
    }

    /** `rebase`: the queue goes on with the lines of the report; the tags are dropped at the next count. */
    method Rebase(status: string)
      modifies this
      ensures Now() == After(kind, old(Now()), Step.Rebase(status))
    {
      hide Split, Queued;
      var lines := Split(status, "\n");
      ghost var all := StatusLines(kind, status);
      var i := 0;
      NothingQueued(buffer, all);
      while i < |lines|
        invariant 0 <= i <= |lines| && tags == old(tags) && clearTags == old(clearTags)
        invariant buffer == Queued(old(buffer), all[..i])
      {
        QueuedNext(old(buffer), all, i);
        Append(Marker(kind) + " " + lines[i]);
        i := i + 1;
      }
      assert all[..|all|] == all;
      clearTags := true;
    }
  }

  lemma NothingQueued(buffer: seq<string>, lines: seq<string>)
    ensures Queued(buffer, lines[..0]) == buffer
  {
  }

  lemma QueuedNext(buffer: seq<string>, lines: seq<string>, i: nat)
    requires i < |lines|
    ensures Queued(buffer, lines[..i + 1]) == Queued(Queued(buffer, lines[..i]), [lines[i]])
  {
    assert lines[..i + 1][..|lines[..i + 1]| - 1] == lines[..i];
    assert [lines[i]][..0] == [];
  }

  // ---- runs

  // The lines that one step puts into the queue.
  function LinesOf(kind: Kind, step: Step): seq<string>
  {
    match step case Push(line) => [line] case Rebase(status) => StatusLines(kind, status) case Read => []
  }

  // The lines that steps put into the queue.
  function Lines(kind: Kind, steps: seq<Step>): seq<string>
  {
    if steps == [] then []
    else
      Lines(kind, steps[..|steps| - 1]) + LinesOf(kind, steps[|steps| - 1])
  }

  // At no time are more lines pending than the queue holds.
  predicate Fits(kind: Kind, s: State, steps: seq<Step>)
  {
    if steps == [] then true
    else
      var init := steps[..|steps| - 1];
      Fits(kind, s, init) && |Run(kind, s, init).buffer| + |LinesOf(kind, steps[|steps| - 1])| <= MAXLEN
  }

  predicate NoRebase(steps: seq<Step>) { forall i :: 0 <= i < |steps| ==> !steps[i].Rebase? }

  lemma {:induction false} QueueFits(buffer: seq<string>, lines: seq<string>)
    requires |buffer| + |lines| <= MAXLEN
    ensures Queued(buffer, lines) == buffer + lines
  {
    if lines == [] {
      assert buffer + lines == buffer;
    } else {
      QueueFits(buffer, lines[..|lines| - 1]);
      assert lines[..|lines| - 1] + [lines[|lines| - 1]] == lines;
    }
  }

  /** Otherwise the oldest lines are lost: the queue holds the last ones. */
  lemma {:induction false} QueueIsLast(buffer: seq<string>, lines: seq<string>)
    requires |buffer| <= MAXLEN
    ensures var all := buffer + lines;
            Queued(buffer, lines) == if |all| <= 1000 then all else all[|all| - 1000..]
  {
    if lines == [] {
      assert buffer + lines == buffer;
    } else {
      var init, last := lines[..|lines| - 1], lines[|lines| - 1];
      QueueIsLast(buffer, init);
      assert buffer + lines == (buffer + init) + [last];
    }
  }

  /**
   Without a rebase, and while the queue has room, what is reported in the end depends on the
   lines alone, wherever the counts were read in between.
  */
  lemma {:induction false} ReadsDoNotMatter(kind: Kind, s: State, steps: seq<Step>)
    requires NoRebase(steps) && Fits(kind, s, steps)
    ensures Reported(kind, Run(kind, s, steps)) == Drained(kind, Reported(kind, s), Lines(kind, steps))
  {
    hide Processed, StatusLines, Queued;
    if steps != [] {
      var init, last := steps[..|steps| - 1], steps[|steps| - 1];
      ReadsDoNotMatter(kind, s, init);
      var t := Run(kind, s, init);
      var before := if t.clearTags then {} else t.tags;
      match last {
        case Push(line) =>
          QueueFits(t.buffer, [line]);
          DrainedConcat(kind, before, t.buffer, [line]);
          DrainedConcat(kind, Reported(kind, s), Lines(kind, init), [line]);
        case Read =>
          assert Lines(kind, steps) == Lines(kind, init);
        case Rebase(_) =>
          assert false;
      }
    }
  }

  /** Two runs with the same lines report the same. */
  lemma SameLinesSameReport(kind: Kind, s: State, steps: seq<Step>, other: seq<Step>)
    requires NoRebase(steps) && NoRebase(other) && Lines(kind, steps) == Lines(kind, other)
    requires Fits(kind, s, steps) && Fits(kind, s, other)
    ensures Reported(kind, Run(kind, s, steps)) == Reported(kind, Run(kind, s, other))
  {
    ReadsDoNotMatter(kind, s, steps);
    ReadsDoNotMatter(kind, s, other);
  }

  /**
   After a rebase the set is exactly the ids whose last event, among the lines pending at
   the rebase, those of the report and those added since, is an opening one.
  */
  lemma AfterRebase(kind: Kind, s: State, status: string, steps: seq<Step>, id: string)
    requires |s.buffer| + |StatusLines(kind, status)| <= MAXLEN
    requires NoRebase(steps) && Fits(kind, After(kind, s, Rebase(status)), steps)
    ensures id in Reported(kind, Run(kind, After(kind, s, Rebase(status)), steps))
            <==> LastOpens(kind, s.buffer + StatusLines(kind, status) + Lines(kind, steps), id)
  {
    hide LastOpens, Mentioned, StatusLines, Queued, Processed;
    var t := After(kind, s, Rebase(status));
    var all := s.buffer + StatusLines(kind, status);
    QueueFits(s.buffer, StatusLines(kind, status));
    ReadsDoNotMatter(kind, t, steps);
    DrainedConcat(kind, {}, all, Lines(kind, steps));
    DrainedIsLast(kind, {}, all + Lines(kind, steps), id);
  }

  function Pushes(lines: seq<string>): seq<Step>
  {
    seq(|lines|, i requires 0 <= i < |lines| => Step.Push(lines[i]))
  }

  lemma {:induction false} PushesQueue(kind: Kind, s: State, lines: seq<string>)
    ensures Run(kind, s, Pushes(lines)) == s.(buffer := Queued(s.buffer, lines))
  {
    if lines != [] {
      var init, last := lines[..|lines| - 1], lines[|lines| - 1];
      PushesQueue(kind, s, init);
      assert Pushes(lines)[..|Pushes(lines)| - 1] == Pushes(init);
      assert lines[..|lines|] == lines;
      QueuedNext(s.buffer, lines, |init|);
    }
  }

  // What is left open by lines that are dropped shows unless a line behind them mentions it.
  lemma ForgottenOrMentioned(kind: Kind, pending: seq<string>, lines: seq<string>)
    ensures Drained(kind, {}, lines) == Drained(kind, {}, pending + lines)
            <==> forall id :: LastOpens(kind, pending, id) ==> Mentioned(kind, lines, id)
  {
    hide LastOpens, Mentioned, Drained, Processed;
    DrainedConcat(kind, {}, pending, lines);
    var tags := Drained(kind, {}, pending);
    forall id ensures id in Drained(kind, {}, lines) <==> LastOpens(kind, lines, id) {
      DrainedIsLast(kind, {}, lines, id);
    }
    forall id
      ensures id in Drained(kind, tags, lines) <==>
                LastOpens(kind, lines, id) || (LastOpens(kind, pending, id) && !Mentioned(kind, lines, id))
    {
      DrainedIsLast(kind, {}, pending, id);
      DrainedIsLast(kind, tags, lines, id);
    }
    forall id | LastOpens(kind, lines, id) ensures Mentioned(kind, lines, id) { OpeningMentions(kind, lines, id); }
  }

  /**
   A count that is read before a rebase, with any lines pushed in between, does change what
   is reported after it, exactly when an id that the read lines leave open is mentioned
   neither by the later lines nor by the report.
  */
  lemma ReadBeforeRebase(kind: Kind, s: State, later: seq<string>, status: string)
    requires |s.buffer| + |later| + |StatusLines(kind, status)| <= MAXLEN
    ensures var steps := Pushes(later) + [Rebase(status)];
            Reported(kind, Run(kind, After(kind, s, Read), steps)) == Reported(kind, Run(kind, s, steps))
            <==> forall id :: LastOpens(kind, s.buffer, id) ==> Mentioned(kind, later + StatusLines(kind, status), id)
  {
    hide LastOpens, Mentioned, StatusLines, Queued, Drained, Processed;
    var report := StatusLines(kind, status);
    PushesThenRebase(kind, After(kind, s, Read), later, status);
    PushesThenRebase(kind, s, later, status);
    assert [] + later + report == later + report;
    assert s.buffer + later + report == s.buffer + (later + report);
    ForgottenOrMentioned(kind, s.buffer, later + report);
  }

  lemma PushesThenRebase(kind: Kind, s: State, later: seq<string>, status: string)
    requires |s.buffer| + |later| + |StatusLines(kind, status)| <= MAXLEN
    ensures Reported(kind, Run(kind, s, Pushes(later) + [Rebase(status)]))
         == Drained(kind, {}, s.buffer + later + StatusLines(kind, status))
  {
    hide StatusLines, Queued, Drained, Pushes;
    var steps := Pushes(later) + [Rebase(status)];
    assert steps[..|steps| - 1] == Pushes(later);
    PushesQueue(kind, s, later);
    QueueFits(s.buffer, later);
    QueueFits(s.buffer + later, StatusLines(kind, status));
  }

  lemma OpeningMentions(kind: Kind, lines: seq<string>, id: string)
    requires LastOpens(kind, lines, id)
    ensures Mentioned(kind, lines, id)
  {
    hide EventOf;
    var i :| 0 <= i < |lines| && EventOf(kind, lines[i]) == Opening(id);
    assert Mentions(kind, lines[i], id);
  }

  // ---- the report

  /** A line of a report is read as the event "marker id status". */
  lemma StatusLine(kind: Kind, id: string, status: string)
    requires ' ' !in id && ' ' !in status
    ensures EventOf(kind, Marker(kind) + " " + Join([id, status], " "))
         == if Opens(kind, status) then Opening(id) else if Closes(status) then Closing(id) else Other
  {
    var words := [Marker(kind), id, status];
    assert words[1..] == [id, status] && words[1..][1..] == [status];
    assert Join(words, " ") == Marker(kind) + " " + Join([id, status], " ");
    FreeOfChar(id, ' ');
    FreeOfChar(status, ' ');
    FreeOfChar(Marker(kind), ' ');
    SplitJoin(words, " ");
  }

  lemma ThreeWords(marker: string, id: string, status: string, more: string)
    requires ' ' !in marker && ' ' !in id && ' ' !in status && (more != "" ==> more[0] == ' ')
    ensures var words := Split(marker + " " + (id + " " + (status + more)), " ");
            |words| >= 3 && words[0] == marker && words[1] == id && words[2] == status
  {
    hide Split;
    FreeOfChar(marker, ' ');
    FreeOfChar(id, ' ');
    FreeOfChar(status, ' ');
    SplitSeam(marker, " ", id + " " + (status + more));
    SplitSeam(id, " ", status + more);
    if more == "" {
      assert status + more == status;
      SplitFree(status, " ");
    } else {
      assert status + more == status + " " + more[1..];
      SplitSeam(status, " ", more[1..]);
    }
  }

  /**
   Lines of text: the marker of the kind, the id, the status, and more or nothing. A status
   that neither opens nor closes is ignored, and so is a line of another marker.
  */
  lemma LineOfText(id: string, status: string, more: string)
    requires ' ' !in id && ' ' !in status && (more != "" ==> more[0] == ' ')
    ensures var text := id + " " + (status + more);
            EventOf(Connections, "ORCONN" + " " + text)
            == (if status == "CONNECTED" then Opening(id)
                else if status in {"FAILED", "CLOSED"} then Closing(id) else Other)
            && EventOf(Circuits, "CIRC" + " " + text)
               == (if status in {"LAUNCHED", "BUILT"} then Opening(id)
                   else if status in {"FAILED", "CLOSED"} then Closing(id) else Other)
            && EventOf(Streams, "STREAM" + " " + text)
               == (if status == "SUCCEEDED" then Opening(id)
                   else if status in {"FAILED", "CLOSED"} then Closing(id) else Other)
            && EventOf(Connections, "CIRC" + " " + text) == EventOf(Connections, "STREAM" + " " + text) == Other
            && EventOf(Circuits, "ORCONN" + " " + text) == EventOf(Circuits, "STREAM" + " " + text) == Other
            && EventOf(Streams, "ORCONN" + " " + text) == EventOf(Streams, "CIRC" + " " + text) == Other
  {
    hide Split;
    ThreeWords("ORCONN", id, status, more);
    ThreeWords("CIRC", id, status, more);
    ThreeWords("STREAM", id, status, more);
  }

  /** A circuit is built, another one fails, the first is closed. */
  lemma CircuitExample()
    ensures EventOf(Circuits, "CIRC" + " " + ("5" + " " + ("BUILT" + " $A~a"))) == Opening("5")
    ensures EventOf(Circuits, "CIRC" + " " + ("6" + " " + ("FAILED" + ""))) == Closing("6")
    ensures EventOf(Circuits, "CIRC" + " " + ("5" + " " + ("EXTENDED" + ""))) == Other
    ensures EventOf(Circuits, "CIRC" + " " + ("5" + " " + ("CLOSED" + ""))) == Closing("5")
  {
    hide EventOf;
    LineOfText("5", "BUILT", " $A~a");
    LineOfText("6", "FAILED", "");
    LineOfText("5", "EXTENDED", "");
    LineOfText("5", "CLOSED", "");
  }

  /** The lines of a report come into the queue one by one, in order. */
  lemma ReportLines(kind: Kind, lines: seq<string>)
    requires lines != [] && forall i :: 0 <= i < |lines| ==> '\n' !in lines[i]
    ensures StatusLines(kind, Join(lines, "\n"))
            == seq(|lines|, i requires 0 <= i < |lines| => Marker(kind) + " " + lines[i])
  {
    forall i | 0 <= i < |lines| ensures Free(lines[i], "\n") { FreeOfChar(lines[i], '\n'); }
    SplitJoin(lines, "\n");
  }
}
