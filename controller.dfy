/** The buffered movement controller of Game1.cs (CheckKeyboardInputBuffer,
    run once per Update): a FIFO queue of pending directions that accepts at
    most MaxBufferSize entries, the last committed direction, and the player
    position. `Step` is the tick on values; class `Controller` performs the
    same tick in place and is proved to agree with it. */
module Controller {
  import opened Vectors
  import opened Input

  /** Capacity limit of the direction queue. */
  const MaxBufferSize: nat := 2

  /** A snapshot of the controller's three fields. */
  datatype State = State(buffer: seq<Dir>, last: Dir, pos: Vec)

  /** The state after initialisation: empty queue, moving down, at the origin. */
  const Init: State := State([], UnitY, Origin)

  /** The queue after the enqueue guard: the candidate is added only when it
      is non-zero and the queue holds fewer than MaxBufferSize entries. */
  function Offer(buffer: seq<Dir>, c: Dir): (r: seq<Dir>)
    ensures r == buffer || r == buffer + [c]
    ensures r == buffer + [c] <==> c != Zero && |buffer| < MaxBufferSize
  {
    if c != Zero && |buffer| < MaxBufferSize then buffer + [c] else buffer
  }

  /** Whether this tick's candidate joins the queue. */
  predicate Accepts(s: State, k: Keys) {
    Candidate(k, s.last) != Zero && |s.buffer| < MaxBufferSize
  }

  /** Whether this tick commits a queued direction. */
  predicate Commits(s: State, k: Keys) {
    |Offer(s.buffer, Candidate(k, s.last))| > 1
  }

  /** One tick: choose the speed and the candidate, offer the candidate to the
      queue, commit the oldest entry when more than one is queued, then move by
      the (possibly new) last direction. */
  function Step(s: State, k: Keys): (r: State)
    ensures |s.buffer| <= MaxBufferSize ==> |r.buffer| <= 1
    ensures r.last == s.last || r.last == (s.buffer + [Candidate(k, s.last)])[0]
  {
    var b := Offer(s.buffer, Candidate(k, s.last));
    var last := CommitLast(b, s.last);
    State(CommitRest(b), last, Add(s.pos, Scale(last, Speed(k.space))))
  }

  /** The last direction after the commit step: the oldest entry when more
      than one is queued, else unchanged. */
  function CommitLast(b: seq<Dir>, last: Dir): (r: Dir)
    ensures |b| > 1 ==> [r] + CommitRest(b) == b
    ensures |b| <= 1 ==> r == last
  {
    if |b| > 1 then b[0] else last
  }

  /** The queue after the commit step. */
  function CommitRest(b: seq<Dir>): (r: seq<Dir>)
    ensures |b| > 1 ==> |r| == |b| - 1 && r == b[|b| - |r|..]
    ensures |b| <= 1 ==> r == b
  {
    if |b| > 1 then b[1..] else b
  }

  /** The states reached from the initial one keep: at most one queued entry
      between ticks, a last direction that is an axis unit, and only axis unit
      entries in the queue. */
  ghost predicate Inv(s: State) {
    |s.buffer| <= 1 &&
    IsAxisUnit(s.last) &&
    AllAxisUnits(s.buffer)
  }

  /** What this tick adds to the queue. */
  function Enqueued(s: State, k: Keys): seq<Dir> {
    if Accepts(s, k) then [Candidate(k, s.last)] else []
  }

  /** What this tick takes off the queue. */
  function Dequeued(s: State, k: Keys): seq<Dir> {
    if Commits(s, k) then [Step(s, k).last] else []
  }

  /** Many ticks. */
  function Run(s: State, ks: seq<Keys>): State
    decreases |ks|
  {
    if ks == [] then s else Run(Step(s, ks[0]), ks[1..])
  }

  /** Every direction accepted into the queue during a run, in order. */
  function AcceptedDuring(s: State, ks: seq<Keys>): seq<Dir>
    decreases |ks|
  {
    if ks == [] then [] else Enqueued(s, ks[0]) + AcceptedDuring(Step(s, ks[0]), ks[1..])
  }

  /** Every direction committed during a run, in order. */
  function CommittedDuring(s: State, ks: seq<Keys>): seq<Dir>
    decreases |ks|
  {
    if ks == [] then [] else Dequeued(s, ks[0]) + CommittedDuring(Step(s, ks[0]), ks[1..])
  }

  /** The enqueue guard: a zero candidate is never queued, nothing is queued
      into a full queue, and a queue within capacity stays within capacity. */
  lemma OfferGuards(buffer: seq<Dir>, c: Dir)
    ensures Offer(buffer, c) == buffer || Offer(buffer, c) == buffer + [c]
    ensures c == Zero ==> Offer(buffer, c) == buffer
    ensures |buffer| >= MaxBufferSize ==> Offer(buffer, c) == buffer
    ensures |buffer| <= MaxBufferSize ==> |Offer(buffer, c)| <= MaxBufferSize
    ensures Zero !in buffer ==> Zero !in Offer(buffer, c)
  {
  }

  /** A tick from a queue within capacity ends with at most one entry, and a
      zero direction never enters the queue. */
  lemma StepBounded(s: State, k: Keys)
    requires |s.buffer| <= MaxBufferSize
    ensures |Step(s, k).buffer| <= 1
    ensures Zero !in s.buffer ==> Zero !in Step(s, k).buffer
  {
  }

  /** One tick is FIFO: the old queue followed by what was enqueued equals what
      was committed followed by the new queue. At most one entry is committed,
      exactly when more than one entry is queued after the offer, and the
      committed entry is the oldest one. */
  lemma StepFifo(s: State, k: Keys)
    ensures s.buffer + Enqueued(s, k) == Dequeued(s, k) + Step(s, k).buffer
    ensures |Dequeued(s, k)| <= 1
    ensures Commits(s, k) <==> |s.buffer + Enqueued(s, k)| > 1
    ensures Commits(s, k) ==> Step(s, k).last == (s.buffer + Enqueued(s, k))[0]
    ensures !Commits(s, k) ==> Step(s, k).last == s.last
  {
    var c := Candidate(k, s.last);
    assert Offer(s.buffer, c) == s.buffer + Enqueued(s, k);
    if Commits(s, k) {
      var b := Offer(s.buffer, c);
      assert b == [b[0]] + b[1..];
    }
  }

  /** Over any run, the queue neither loses nor reorders directions: the
      initial queue followed by everything accepted equals everything
      committed followed by the final queue. */
  lemma {:induction false} RunFifo(s: State, ks: seq<Keys>)
    ensures s.buffer + AcceptedDuring(s, ks) == CommittedDuring(s, ks) + Run(s, ks).buffer
    decreases |ks|
  {
    if ks != [] {
      var t := Step(s, ks[0]);
      StepFifo(s, ks[0]);
      RunFifo(t, ks[1..]);
      assert AcceptedDuring(s, ks) == Enqueued(s, ks[0]) + AcceptedDuring(t, ks[1..]);
      assert CommittedDuring(s, ks) == Dequeued(s, ks[0]) + CommittedDuring(t, ks[1..]);
      assert Run(s, ks) == Run(t, ks[1..]);
      Splice(s.buffer, Enqueued(s, ks[0]), Dequeued(s, ks[0]), t.buffer,
        AcceptedDuring(t, ks[1..]), CommittedDuring(t, ks[1..]), Run(t, ks[1..]).buffer);
    }
  }

  /** Two FIFO balances chained together give one. */
  lemma Splice<T>(old0: seq<T>, in0: seq<T>, out0: seq<T>, mid: seq<T>,
                  in1: seq<T>, out1: seq<T>, fin: seq<T>)
    requires old0 + in0 == out0 + mid
    requires mid + in1 == out1 + fin
    ensures old0 + (in0 + in1) == (out0 + out1) + fin
  {
    calc {
      old0 + (in0 + in1);
      (old0 + in0) + in1;
      (out0 + mid) + in1;
      out0 + (mid + in1);
      out0 + (out1 + fin);
    }
  }

  lemma InitInv()
    ensures Inv(Init)
  {
  }

  /** The invariant holds after every tick. */
  lemma StepPreservesInv(s: State, k: Keys)
    requires Inv(s)
    ensures Inv(Step(s, k))
  {
    var c := Candidate(k, s.last);
    OfferKeepsAxisUnits(s.buffer, c);
    CommitKeepsAxisUnits(Offer(s.buffer, c), s.last);
  }

  /** All entries of `b` are axis units. */
  predicate AllAxisUnits(b: seq<Dir>) {
    forall i :: 0 <= i < |b| ==> IsAxisUnit(b[i])
  }

  lemma OfferKeepsAxisUnits(buffer: seq<Dir>, c: Dir)
    requires AllAxisUnits(buffer) && |buffer| <= 1
    requires c == Zero || IsAxisUnit(c)
    ensures AllAxisUnits(Offer(buffer, c)) && |Offer(buffer, c)| <= 2
  {
  }

  lemma CommitKeepsAxisUnits(b: seq<Dir>, last: Dir)
    requires AllAxisUnits(b) && |b| <= 2 && IsAxisUnit(last)
    ensures IsAxisUnit(CommitLast(b, last)) && AllAxisUnits(CommitRest(b)) && |CommitRest(b)| <= 1
  {
  }

  /** Every state reached from the initial one satisfies the invariant. */
  lemma {:induction false} RunPreservesInv(s: State, ks: seq<Keys>)
    requires Inv(s)
    ensures Inv(Run(s, ks))
    decreases |ks|
  {
    if ks != [] {
      StepPreservesInv(s, ks[0]);
      RunPreservesInv(Step(s, ks[0]), ks[1..]);
    }
  }

  /** In a reachable state the capacity test never rejects anything: a
      candidate is queued exactly when it is non-zero. */
  lemma AcceptsExactlyNonZero(s: State, k: Keys)
    requires Inv(s)
    ensures Accepts(s, k) <==> Candidate(k, s.last) != Zero
  {
  }

  /** Starting from the initial state, after any number of ticks the queue
      holds at most one entry, the last direction is an axis unit, and the
      next non-zero candidate will be queued. */
  lemma ReachableFromInit(ks: seq<Keys>, k: Keys)
    ensures |Run(Init, ks).buffer| <= 1
    ensures IsAxisUnit(Run(Init, ks).last)
    ensures Accepts(Run(Init, ks), k) <==> Candidate(k, Run(Init, ks).last) != Zero
  {
    InitInv();
    RunPreservesInv(Init, ks);
    AcceptsExactlyNonZero(Run(Init, ks), k);
  }

  /** Each tick moves the position by exactly the new last direction times the
      tick's speed; when nothing is committed that is the old direction (the
      actor drifts). Nothing else touches the position. */
  lemma StepMoves(s: State, k: Keys)
    ensures Step(s, k).pos == Add(s.pos, Scale(Step(s, k).last, Speed(k.space)))
    ensures !Commits(s, k) ==> Step(s, k).pos == Add(s.pos, Scale(s.last, Speed(k.space)))
  {
  }

  /** In a reachable state the actor never stands still: each tick it moves
      along exactly one axis by exactly the tick's speed. */
  lemma StepNeverStops(s: State, k: Keys)
    requires Inv(s)
    ensures var d := Step(s, k).pos; var v := Speed(k.space);
      (d.x == s.pos.x && (d.y == s.pos.y + v || d.y == s.pos.y - v)) ||
      (d.y == s.pos.y && (d.x == s.pos.x + v || d.x == s.pos.x - v))
  {
    StepPreservesInv(s, k);
    AxisUnitScale(Step(s, k).last, Speed(k.space));
  }

  /** From an empty queue, a non-zero candidate is queued and nothing is
      committed. */
  lemma StepFromEmpty(s: State, k: Keys)
    requires s.buffer == [] && Candidate(k, s.last) != Zero
    ensures Step(s, k).buffer == [Candidate(k, s.last)] && Step(s, k).last == s.last
  {
  }

  /** With one entry queued, a non-zero candidate pushes that entry out: it
      becomes the last direction and the candidate waits in its place. */
  lemma StepWithOneQueued(s: State, k: Keys)
    requires |s.buffer| == 1 && Candidate(k, s.last) != Zero
    ensures Step(s, k).buffer == [Candidate(k, s.last)] && Step(s, k).last == s.buffer[0]
  {
    var b := s.buffer + [Candidate(k, s.last)];
    assert b[1..] == [Candidate(k, s.last)];
  }

  /** The anti-reversal guard compares with the last committed direction, not
      with the queued one, so the committed direction can still reverse on
      consecutive ticks. From an empty queue while moving down (as in the
      initial state): holding Left, then Right, then any key that yields a
      candidate commits Left on the second tick and its opposite, Right, on
      the third. */
  lemma ReversalThroughBuffer(s: State, first: Keys, second: Keys, third: Keys)
    requires s.buffer == [] && s.last == Down
    requires first.a && !(first.w || first.up || first.s || first.down)
    requires second.d && NoDirectionKey(second.(d := false))
    requires third.s && !(third.w || third.up)
    ensures Step(Step(s, first), second).last == Left
    ensures Step(Step(Step(s, first), second), third).last == Right
  {
    var s0 := Step(s, first);
    assert s0.buffer == [Left] && s0.last == Down by {
      assert Candidate(first, Down) == Left;
      StepFromEmpty(s, first);
    }
    var s1 := Step(s0, second);
    assert s1.buffer == [Right] && s1.last == Left by {
      assert Candidate(second, Down) == Right;
      StepWithOneQueued(s0, second);
    }
    assert Step(s1, third).last == Right by {
      assert Candidate(third, Left) == Down;
      StepWithOneQueued(s1, third);
    }
  }

  /** The controller object of Game1.cs: the queue, the last committed
      direction and the player position, updated in place. */
  class Controller {
    var buffer: seq<Dir>
    var lastDirection: Dir
    var position: Vec

    /** The fields as a value. */
    function Snapshot(): State
      reads this
    {
      State(buffer, lastDirection, position)
    }

    ghost predicate Valid()
      reads this
    {
      Inv(Snapshot())
    }

    /** Field initialisers plus Initialize: empty queue, moving down, origin. */
    constructor ()
      ensures Valid()
      ensures Snapshot() == Init
    {
      buffer := [];
      lastDirection := UnitY;
      position := Origin;
    }

    /** Queue.Enqueue on the direction queue. A primitive of the queue, used
        only inside Tick: it does not keep Valid() on its own. */
    method Enqueue(d: Dir)
      modifies this`buffer
      ensures buffer == old(buffer) + [d]
    {
      buffer := buffer + [d];
    }

    /** Queue.Dequeue on the direction queue: removes and returns the oldest
        entry. The queue must not be empty. A primitive of the queue, used
        only inside Tick: it does not keep Valid() on its own. */
    method Dequeue() returns (d: Dir)
      requires |buffer| > 0
      modifies this`buffer
      ensures d == old(buffer)[0] && buffer == old(buffer)[1..]
    {
      d := buffer[0];
      buffer := buffer[1..];
    }

    /** CheckKeyboardInputBuffer: one tick of the buffered controller. */
    method Tick(keys: Keys)
      requires Valid()
      modifies this
      ensures Valid()
      ensures Snapshot() == Step(old(Snapshot()), keys)
    {
      ghost var before := Snapshot();
      var newDirection := Zero;
      var speed := Speed(keys.space);
      newDirection := Candidate(keys, lastDirection);
      if newDirection != Zero && |buffer| < MaxBufferSize {
        Enqueue(newDirection);
      }
      assert buffer == Offer(before.buffer, newDirection);
      if |buffer| > 1 {
        lastDirection := Dequeue();
      }
      assert buffer == CommitRest(Offer(before.buffer, newDirection));
      assert lastDirection == CommitLast(Offer(before.buffer, newDirection), before.last);
      position := Add(position, Scale(lastDirection, speed));
      assert Snapshot() == Step(before, keys);
      StepPreservesInv(before, keys);
    }

    /** CheckKeyboardInput: moves the position by the unbuffered keyboard
        displacement and touches nothing else. */
    method CheckKeyboardInput(keys: Keys)
      modifies this`position
      ensures position == Add(old(position), KeyboardDisplacement(keys))
    {
      position := Add(position, KeyboardDisplacement(keys));
    }

    /** CheckGamePadInput without the vibration side effect: moves the
        position by the gamepad displacement and touches nothing else. */
    method CheckGamePadInput(pad: Pad)
      modifies this`position
      ensures position == Add(old(position), PadDisplacement(pad))
    {
      position := Add(position, PadDisplacement(pad));
    }
  }
}
