/**
 `boxDataPlayer`: frames of data wait in a ring; their data are handed to the play
 callback one by one, each no earlier than its timestamp plus a fixed delay.
*/
module Player {
  import opened Collections

  // An element of a frame; null ends the frame for the player.
  datatype Item = Null | Datum(stamp: int, payload: string)
  type Frame = seq<Item>

  // What the player takes from a frame: everything before the first null.
  function Effective(f: Frame): Frame
  {
    if f == [] || f[0].Null? then [] else [f[0]] + Effective(f[1..])
  }

  lemma {:induction false} EffectiveOfData(f: Frame)
    requires forall i :: 0 <= i < |f| ==> f[i].Datum?
    ensures Effective(f) == f
  {
    if f != [] { EffectiveOfData(f[1..]); }
  }

  /** The whole front of the frame up to the first null. */
  lemma {:induction false} EffectiveIs(f: Frame)
    ensures Effective(f) <= f && forall i :: 0 <= i < |Effective(f)| ==> f[i].Datum?
    ensures |Effective(f)| < |f| ==> f[|Effective(f)|].Null?
  {
    if f != [] && f[0].Datum? {
      EffectiveIs(f[1..]);
      assert f == [f[0]] + f[1..];
    }
  }

  // What the player still takes from a frame, from index i on.
  function From(f: Frame, i: nat): seq<Item> { if i < |f| then Effective(f[i..]) else [] }

  lemma FromUnfold(f: Frame, i: nat)
    ensures From(f, i) == if i < |f| && f[i].Datum? then [f[i]] + From(f, i + 1) else []
  {
    if i < |f| { assert f[i..][1..] == f[i + 1..]; }
  }

  lemma FromStart(f: Frame)
    ensures From(f, 0) == Effective(f)
  {
    assert f[0..] == f;
  }

  function Flow(frames: seq<Frame>): seq<Item>
  {
    if frames == [] then [] else Effective(frames[0]) + Flow(frames[1..])
  }

  function Concat(frames: seq<Frame>): seq<Item>
  {
    if frames == [] then [] else frames[0] + Concat(frames[1..])
  }

  /** Of frames without null items the whole is played, one after the other. */
  lemma {:induction false} FlowOfData(frames: seq<Frame>)
    requires forall k :: 0 <= k < |frames| ==> forall i :: 0 <= i < |frames[k]| ==> frames[k][i].Datum?
    ensures Flow(frames) == Concat(frames)
  {
    if frames != [] {
      EffectiveOfData(frames[0]);
      FlowOfData(frames[1..]);
    }
  }

  lemma FlowHead(q: seq<Frame>)
    requires q != []
    ensures Flow(q) == From(q[0], 0) + Flow(q[1..])
  {
    FromStart(q[0]);
  }

  lemma FlowOfNone()
    ensures Flow([]) == []
  {
  }

  lemma {:induction false} FlowConcat(x: seq<Frame>, y: seq<Frame>)
    ensures Flow(x + y) == Flow(x) + Flow(y)
  {
    if x == [] {
      assert x + y == y;
    } else {
      assert (x + y)[1..] == x[1..] + y;
      FlowConcat(x[1..], y);
    }
  }

  // The cell at position c of a ring of n cells, for c at most one turn too far.
  function Wrap(c: int, n: int): int { if c >= n then c - n else c }

  /** The given number of frames behind cell `first` of the ring, oldest first. */
  function Ring(cells: seq<Frame>, first: int, count: nat): (q: seq<Frame>)
    requires -1 <= first < |cells| && count < |cells|
    ensures |q| == count
  {
    seq(count, k requires 0 <= k < count => cells[Wrap(first + 1 + k, |cells|)])
  }

  // Slicing moves to the next cell and leaves the tail of the queue.
  lemma RingTail(cells: seq<Frame>, first: int, count: nat)
    requires -1 <= first < |cells| && 0 < count < |cells|
    ensures var next := Wrap(first + 1, |cells|);
            0 <= next < |cells|
            && Ring(cells, first, count)[0] == cells[next]
            && Ring(cells, first, count)[1..] == Ring(cells, next, count - 1)
  {
    var x, y := Ring(cells, first, count)[1..], Ring(cells, Wrap(first + 1, |cells|), count - 1);
    forall k | 0 <= k < count - 1 ensures x[k] == y[k] {
      assert x[k] == cells[Wrap(first + 1 + (k + 1), |cells|)];
      assert y[k] == cells[Wrap(Wrap(first + 1, |cells|) + 1 + k, |cells|)];
    }
  }

  // Storing in the cell behind the last one appends to the queue.
  lemma RingAppend(cells: seq<Frame>, first: int, count: nat, f: Frame)
    requires -1 <= first < |cells| && count + 1 < |cells|
    ensures var c := Wrap(first + 1 + count, |cells|);
            0 <= c < |cells| && Ring(cells[c := f], first, count + 1) == Ring(cells, first, count) + [f]
  {
    var c := Wrap(first + 1 + count, |cells|);
    var x, y := Ring(cells[c := f], first, count + 1), Ring(cells, first, count);
    forall k | 0 <= k < count ensures x[k] == y[k] {
      assert Wrap(first + 1 + k, |cells|) != c;
    }
  }

  class BoxDataPlayer {
    const delay: nat
    const frameQueue: array<Frame>
    var timerRunning: bool
    var due: int                      // when the pending timer fires
    var lastPointer: int             // the latest frame appended
    var firstPointer: int            // the last frame sliced; the same as the other: empty
    var playFrame: Option<Frame>
    var playData: Item
    var playDataIndex: nat
    var now: int                      // the client's clock

    ghost var accepted: seq<Frame>    // frames for which append returned true
    ghost var played: seq<Item>       // what the callback got
    ghost var playedAt: seq<int>      // and when

    constructor (delay: nat, now: int)
      ensures Valid() && this.now == now && this.delay == delay
      ensures accepted == [] && played == [] && Queued() == []
      ensures frameQueue.Length == (delay + 500) / 1000 + 10 && fresh(frameQueue)
    {
      this.delay := delay;
      this.now := now;
      frameQueue := new Frame[(delay + 500) / 1000 + 10](_ => []);
      timerRunning, due := false, now;
      lastPointer, firstPointer := -1, -1;
      playFrame, playData, playDataIndex := None, Null, 0;
      accepted, played, playedAt := [], [], [];
    }

    // ---- the abstract state

    ghost predicate Pointers()
      reads this
    {
      var n := frameQueue.Length;
      n >= 2 && -1 <= firstPointer < n && -1 <= lastPointer < n
      && (firstPointer == -1 ==> lastPointer <= 0)
      && (lastPointer == -1 ==> firstPointer == -1)
    }

    ghost function Count(): nat
      requires Pointers()
      reads this
    {
      if lastPointer >= firstPointer then lastPointer - firstPointer
      else lastPointer - firstPointer + frameQueue.Length
    }

    /** The frames waiting in the ring. */
    ghost function Queued(): (q: seq<Frame>)
      requires Pointers()
      ensures |q| == Count() < frameQueue.Length
      reads this, frameQueue
    {
      Ring(frameQueue[..], firstPointer, Count())
    }

    // A frame being played has been sliced, and the cursor is inside it.
    ghost predicate Cursor()
      reads this
    {
      playFrame.Some? ==> firstPointer >= 0 && playDataIndex < |playFrame.value|
    }

    ghost function RestOfFrame(): seq<Item>
      reads this
    {
      if playFrame.None? then [] else From(playFrame.value, playDataIndex + 1)
    }

    /** All data behind the cursor. */
    ghost function Ahead(): seq<Item>
      requires Pointers()
      reads this, frameQueue
    {
      RestOfFrame() + Flow(Queued())
    }

    // Everything accepted has been played, is held, or is ahead; nothing was played early.
    ghost predicate Accounted(held: seq<Item>)
      requires Pointers()
      reads this, frameQueue
    {
      Flow(accepted) == played + held + Ahead()
      && |playedAt| == |played|
      && forall k :: 0 <= k < |played| ==> played[k].Datum? && playedAt[k] >= played[k].stamp + delay
    }

    /** Between two events. */
    ghost predicate Valid()
      reads this, frameQueue
    {
      Pointers() && Cursor()
      && (if timerRunning then
            playData.Datum? && firstPointer >= 0 && due == playData.stamp + delay >= now && Accounted([playData])
          else Ahead() == [] && Queued() == [] && playFrame.None? && Accounted([]))
    }

    // ---- the ring

    method SliceFrame() returns (f: Option<Frame>)
      requires Pointers()
      modifies this`firstPointer
      ensures Pointers()
      ensures old(Queued()) == [] ==> f.None? && firstPointer == old(firstPointer)
      ensures old(Queued()) != [] ==> f == Some(old(Queued())[0]) && Queued() == old(Queued())[1..] && firstPointer >= 0
    {
      if firstPointer == lastPointer { return None; }
      RingTail(frameQueue[..], firstPointer, Count());
      firstPointer := firstPointer + 1;
      if firstPointer >= frameQueue.Length { firstPointer := 0; }
      f := Some(frameQueue[firstPointer]);
    }

    // ---- the cursor

    // The first half of a pass of the loop below: the next position, in the next frame if need be.
    method Position()
      requires Pointers() && Cursor()
      modifies this`playFrame, this`playDataIndex, this`firstPointer
      ensures Pointers()
      ensures playFrame.Some? ==> firstPointer >= 0
                                   && (old(playFrame.Some?) ==> 2 * Count() + 1 == old(Left()))
                                   && (old(playFrame.None?) ==> 2 * Count() + 2 == old(Left()))
                                   && old(Ahead()) == From(playFrame.value, playDataIndex) + Flow(Queued())
      ensures playFrame.None? ==> old(Ahead()) == [] == Ahead() && Queued() == [] && firstPointer == old(firstPointer)
      ensures playFrame.None? ==> old(Queued()) == []
    {
      hide Effective, From, Ring, Flow;
      ghost var q := Queued();
      if playFrame.None? {
        playFrame := SliceFrame();
        playDataIndex := 0;
        if playFrame.None? {
          FlowOfNone();
        } else {
          FlowHead(q);
        }
      } else {
        playDataIndex := playDataIndex + 1;
      }
    }

    // One pass of the do-while loop below: true if it has to go on.
    method Advance() returns (again: bool)
      requires Pointers() && Cursor()
      modifies this`playData, this`playFrame, this`playDataIndex, this`firstPointer
      ensures Pointers() && Cursor()
      ensures again ==> playData.Null? && Ahead() == old(Ahead()) && Left() < old(Left())
      ensures !again && playFrame.Some? ==> playData.Datum? && old(Ahead()) == [playData] + Ahead()
      ensures !again && playFrame.None? ==> old(Ahead()) == [] == Ahead() && Queued() == []
      ensures old(firstPointer) >= 0 || old(Queued()) != [] ==> firstPointer >= 0
    {
      hide Effective, From, Ring, Flow;
      Position();
      if playFrame.None? { return false; }
      FromUnfold(playFrame.value, playDataIndex);
      playData := Null;
      if |playFrame.value| > playDataIndex {
        playData := playFrame.value[playDataIndex];
      }
      if playData.Null? {
        playFrame := None;
      }
      return playData.Null?;
    }

    // Frames still queued, and whether one is being played.
    ghost function Left(): nat
      requires Pointers()
      reads this
    {
      2 * Count() + if playFrame.None? then 0 else 1
    }

    /** Moves the cursor to the next datum, through as many frames as it takes. */
    method LoadNextData() returns (loaded: bool)
      requires Pointers() && Cursor()
      modifies this`playData, this`playFrame, this`playDataIndex, this`firstPointer
      ensures Pointers() && Cursor()
      ensures loaded ==> playData.Datum? && firstPointer >= 0 && old(Ahead()) == [playData] + Ahead()
      ensures !loaded ==> old(Ahead()) == [] == Ahead() && Queued() == [] && playFrame.None?
      ensures old(firstPointer) >= 0 || old(Queued()) != [] ==> firstPointer >= 0
    {
      playData := Null;
      var again := true;
      while again
        invariant Pointers() && Cursor()
        invariant again ==> Ahead() == old(Ahead())
        invariant !again && playFrame.Some? ==> playData.Datum? && old(Ahead()) == [playData] + Ahead()
        invariant !again && playFrame.None? ==> old(Ahead()) == [] == Ahead() && Queued() == []
        invariant old(firstPointer) >= 0 || (old(Queued()) != [] && !again) ==> firstPointer >= 0
        invariant Queued() == old(Queued()) || firstPointer >= 0
        decreases again, Left()
      {
        again := Advance();
      }
      loaded := playFrame.Some?;
    }

    // ---- playing

    // `new Date().getTime()`: some time, not before the last reading.
    method ReadClock()
      modifies this`now
      ensures now >= old(now)
    {
      var t: int :| t >= now;
      now := t;
    }

    /** Hands the held datum to the callback and goes on to the next one. */
    method PlayNextData() returns (ok: bool)
      requires Pointers() && Cursor() && firstPointer >= 0
      requires playData.Datum? ==> now >= playData.stamp + delay && Accounted([playData])
      modifies this
      ensures ok == old(playData.Datum?)
      ensures ok ==> Valid() && accepted == old(accepted) && old(played) + [old(playData)] <= played
      ensures ok ==> firstPointer >= 0 && now >= old(now)
      decreases |Ahead()|, 1
    {
      hide Effective, From, Ring, Flow;
      timerRunning := false;
      if playData.Null? { return false; }
      played, playedAt := played + [playData], playedAt + [now];
      assert played + [] + Ahead() == old(played) + [playData] + Ahead();
      WaitNextData();
      return true;
    }

    method WaitNextData()
      requires if timerRunning then Valid() else Pointers() && Cursor() && Accounted([])
      modifies this
      ensures Valid() && accepted == old(accepted)
      ensures old(played) <= played
      ensures old(timerRunning) ==> unchanged(this)
      ensures old(firstPointer) >= 0 || old(Queued()) != [] ==> firstPointer >= 0
      ensures now >= old(now)
      decreases |Ahead()|, 0
    {
      hide Effective, From, Ring, Flow;
      if timerRunning { return; }
      ghost var all := Ahead();
      var loaded := LoadNextData();
      if !loaded { return; }
      assert played + [] + all == played + [playData] + Ahead();
      var nextTimestamp := playData.stamp;
      ReadClock();
      var timeoutValue := nextTimestamp + delay - now;
      if timeoutValue < 0 {
        var _ := PlayNextData();
        return;
      }
      timerRunning := true;
      due := now + timeoutValue;
    }

    /** Starting a player that waits for its timer changes nothing; an idle one has nothing to play. */
    method Start()
      requires Valid()
      modifies this
      ensures Valid() && accepted == old(accepted) && played == old(played)
      ensures old(timerRunning) ==> unchanged(this)
      ensures timerRunning == old(timerRunning) && (timerRunning ==> due >= now)
    {
      WaitNextData();
    }

    /** The timer fires, not before it is due. */
    method Fire(t: int)
      requires Valid() && timerRunning && t >= due && t >= now
      modifies this
      ensures Valid() && accepted == old(accepted)
      ensures old(played) + [old(playData)] <= played
      ensures timerRunning ==> due >= now >= t
    {
      now := t;
      var _ := PlayNextData();
    }

    // The ring's part of append.
    method Enqueue(frame: Frame) returns (ok: bool)
      requires Pointers() && (firstPointer == -1 ==> lastPointer == -1)
      modifies this`lastPointer, frameQueue
      ensures Pointers()
      ensures ok <==> old(|Queued()|) < frameQueue.Length - 1
      ensures ok ==> Queued() == old(Queued()) + [frame]
      ensures !ok ==> unchanged(this) && unchanged(frameQueue)
    {
      var testPointer := lastPointer + 1;
      if testPointer >= frameQueue.Length { testPointer := 0; }
      if testPointer == firstPointer { return false; }
      RingAppend(frameQueue[..], firstPointer, Count(), frame);
      lastPointer := testPointer;
      frameQueue[lastPointer] := frame;
      return true;
    }

    /** Queues a frame; refuses exactly when the ring is full. */
    method Append(frame: Frame) returns (ok: bool)
      requires Valid()
      modifies this, frameQueue
      ensures Valid()
      ensures ok <==> old(|Queued()|) < frameQueue.Length - 1
      ensures ok ==> accepted == old(accepted) + [frame] && old(played) <= played
      ensures timerRunning ==> due >= now
      ensures firstPointer >= 0
      ensures !ok ==> unchanged(this) && unchanged(frameQueue)
    {
      hide Effective, From, Ring, Flow;
      ghost var q, rest := Queued(), RestOfFrame();
      ok := Enqueue(frame);
      if !ok { return; }
      FlowConcat(q, [frame]);
      FlowConcat(accepted, [frame]);
      accepted := accepted + [frame];
      assert Ahead() == rest + Flow(q) + Flow([frame]);
      WaitNextData();
    }

    /** An idle player has played everything it accepted, once and in order. */
    lemma IdleMeansPlayed()
      requires Valid() && !timerRunning
      ensures played == Flow(accepted) && |playedAt| == |played|
    {
      assert played + [] + Ahead() == played;
    }
  }
}
