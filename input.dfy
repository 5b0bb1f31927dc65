/** The per-tick input rules of Game1.cs: the speed chosen from the boost
    key, the buffered controller's candidate direction with its anti-reversal
    guard, and the displacements of the two unbuffered handlers
    (CheckKeyboardInput and CheckGamePadInput). Key and button states arrive
    as snapshots instead of being polled. */
module Input {
  import opened Vectors

  /** Base speed of the player actor, in pixels per tick. */
  const MovementSpeed: real := 5.0
  /** Multiplier applied while the boost key or button is held. */
  const BoostFactor: real := 1.5

  /** The keyboard keys the controller reads, true when held down. */
  datatype Keys = Keys(
    w: bool, up: bool,
    s: bool, down: bool,
    a: bool, left: bool,
    d: bool, right: bool,
    space: bool)

  /** The gamepad state CheckGamePadInput reads: the A button (boost), the
      left thumbstick as read from the device (y grows upwards) and the D-pad. */
  datatype Pad = Pad(
    buttonA: bool,
    stick: Vec,
    dpadUp: bool, dpadDown: bool, dpadLeft: bool, dpadRight: bool)

  /** The speed for this tick. */
  function Speed(boost: bool): (r: real)
    ensures r == if boost then 7.5 else 5.0
    ensures r > 0.0
  {
    MovementSpeed * (if boost then BoostFactor else 1.0)
  }

  /** Whether a key bound to the axis direction `dir` is held. */
  predicate Held(k: Keys, dir: Dir) {
    (dir == Up && (k.w || k.up)) ||
    (dir == Down && (k.s || k.down)) ||
    (dir == Left && (k.a || k.left)) ||
    (dir == Right && (k.d || k.right))
  }

  /** Whether no directional key at all is held. */
  predicate NoDirectionKey(k: Keys) {
    !(k.w || k.up || k.s || k.down || k.a || k.left || k.d || k.right)
  }

  /** `dir` is held and is not the excluded direction. */
  predicate Allowed(k: Keys, dir: Dir, excluded: Dir) {
    Held(k, dir) && dir != excluded
  }

  /** The order in which the buffered controller tests the keys. */
  const BufferedOrder: seq<Dir> := [Up, Down, Left, Right]
  /** The order in which CheckKeyboardInput tests the keys. */
  const KeyboardOrder: seq<Dir> := [Up, Right, Down, Left]

  /** Reference definition of a fixed key priority: `r` is the first entry of
      `order` that is allowed, or Zero when no entry is. */
  ghost predicate IsFirstAllowed(order: seq<Dir>, k: Keys, excluded: Dir, r: Dir) {
    if r == Zero then
      forall i :: 0 <= i < |order| ==> !Allowed(k, order[i], excluded)
    else
      r in order && Allowed(k, r, excluded) &&
      forall i, j :: 0 <= j < i < |order| && order[i] == r ==> !Allowed(k, order[j], excluded)
  }

  /** The candidate direction of the buffered controller: the first held
      direction in the order Up, Down, Left, Right that is not the exact
      opposite of the last committed direction, else Zero. */
  function Candidate(k: Keys, last: Dir): (r: Dir)
    ensures r == Zero || (IsAxisUnit(r) && Held(k, r))
    ensures last != Zero ==> r != Neg(last)
  {
    if last != UnitY && (k.w || k.up) then Neg(UnitY)
    else if last != Neg(UnitY) && (k.s || k.down) then UnitY
    else if last != UnitX && (k.a || k.left) then Neg(UnitX)
    else if last != Neg(UnitX) && (k.d || k.right) then UnitX
    else Zero
  }

  /** The first allowed direction of `BufferedOrder`, tested one by one. */
  function FirstBuffered(k: Keys, excluded: Dir): Dir {
    if Allowed(k, Up, excluded) then Up
    else if Allowed(k, Down, excluded) then Down
    else if Allowed(k, Left, excluded) then Left
    else if Allowed(k, Right, excluded) then Right
    else Zero
  }

  lemma FirstBufferedIsFirst(k: Keys, excluded: Dir)
    ensures IsFirstAllowed(BufferedOrder, k, excluded, FirstBuffered(k, excluded))
  {
    var o := BufferedOrder;
    assert o[0] == Up && o[1] == Down && o[2] == Left && o[3] == Right;
  }

  /** The candidate is selected by the fixed priority Up, Down, Left, Right,
      skipping the exact opposite of the last committed direction. */
  lemma CandidatePicksFirst(k: Keys, last: Dir)
    ensures IsFirstAllowed(BufferedOrder, k, Neg(last), Candidate(k, last))
  {
    CandidateIsFirstBuffered(k, last);
    FirstBufferedIsFirst(k, Neg(last));
  }

  lemma CandidateIsFirstBuffered(k: Keys, last: Dir)
    ensures Candidate(k, last) == FirstBuffered(k, Neg(last))
  {
  }

  /** While moving down, a lone "up" request is rejected and yields no candidate. */
  lemma UpRejectedWhileMovingDown(k: Keys)
    requires k.up && !(k.s || k.down || k.a || k.left || k.d || k.right)
    ensures Candidate(k, Down) == Zero
  {
  }

  /** The direction CheckKeyboardInput moves in: the first held direction in
      the order Up, Right, Down, Left, else Zero. */
  function KeyboardDirection(k: Keys): (r: Dir)
    ensures r == Zero <==> NoDirectionKey(k)
    ensures r != Zero ==> IsAxisUnit(r) && Held(k, r)
  {
    if k.w || k.up then Up
    else if k.d || k.right then Right
    else if k.s || k.down then Down
    else if k.a || k.left then Left
    else Zero
  }

  /** CheckKeyboardInput follows the fixed priority Up, Right, Down, Left and
      never skips a held key. */
  lemma KeyboardPicksFirst(k: Keys)
    ensures IsFirstAllowed(KeyboardOrder, k, Zero, KeyboardDirection(k))
  {
    var o := KeyboardOrder;
    var r := KeyboardDirection(k);
    assert o[0] == Up && o[1] == Right && o[2] == Down && o[3] == Left;
    if Held(k, Up) {
      assert r == o[0];
    } else if Held(k, Right) {
      assert r == o[1];
    } else if Held(k, Down) {
      assert r == o[2];
    } else if Held(k, Left) {
      assert r == o[3];
    } else {
      assert r == Zero;
    }
  }

  /** The displacement CheckKeyboardInput applies to the position: along
      exactly one axis by the tick's speed, or none when no key is held. */
  function KeyboardDisplacement(k: Keys): (r: Vec)
    ensures NoDirectionKey(k) <==> r == Origin
    ensures r.x == 0.0 || r.y == 0.0
    ensures !NoDirectionKey(k) ==>
      (r.x == 0.0 && (r.y == Speed(k.space) || r.y == -Speed(k.space))) ||
      (r.y == 0.0 && (r.x == Speed(k.space) || r.x == -Speed(k.space)))
    ensures r == Scale(KeyboardDirection(k), Speed(k.space))
  {
    Scale(KeyboardDirection(k), Speed(k.space))
  }

  /** The D-pad part of CheckGamePadInput: each held button adds its own
      contribution, in the order Up, Down, Left, Right. The buttons act
      independently: the result is the speed times the net pull on each axis,
      so opposite buttons cancel. */
  function DPadDisplacement(p: Pad, speed: real): (r: Vec)
    ensures r == Scale(Dir(Pull(p.dpadLeft, p.dpadRight), Pull(p.dpadUp, p.dpadDown)), speed)
  {
    var v0 := Origin;
    var v1 := if p.dpadUp then Vec(v0.x, v0.y - speed) else v0;
    var v2 := if p.dpadDown then Vec(v1.x, v1.y + speed) else v1;
    var v3 := if p.dpadLeft then Vec(v2.x - speed, v2.y) else v2;
    if p.dpadRight then Vec(v3.x + speed, v3.y) else v3
  }

  /** -1, 0 or +1: the net pull of a pair of opposite buttons. */
  function Pull(negative: bool, positive: bool): (r: int)
    ensures -1 <= r <= 1
    ensures r == 0 <==> negative == positive
  {
    (if positive then 1 else 0) - (if negative then 1 else 0)
  }

  /** The displacement CheckGamePadInput applies: a non-zero thumbstick
      overrides the D-pad, with its y axis inverted for the screen. */
  function PadDisplacement(p: Pad): (r: Vec)
    ensures p.stick != Origin ==>
      r.x == p.stick.x * Speed(p.buttonA) && r.y == -(p.stick.y * Speed(p.buttonA))
    ensures p.stick == Origin ==>
      r == Scale(Dir(Pull(p.dpadLeft, p.dpadRight), Pull(p.dpadUp, p.dpadDown)), Speed(p.buttonA))
  {
    var speed := Speed(p.buttonA);
    if p.stick != Origin then
      Vec(p.stick.x * speed, -(p.stick.y * speed))
    else
      DPadDisplacement(p, speed)
  }

  /** With the thumbstick at rest, D-pad Up and Down held together (or Left and
      Right) leave that coordinate unchanged, and one button alone moves it by
      exactly the speed. */
  lemma DPadOppositesCancel(p: Pad)
    requires p.stick == Origin
    ensures p.dpadUp == p.dpadDown ==> PadDisplacement(p).y == 0.0
    ensures p.dpadLeft == p.dpadRight ==> PadDisplacement(p).x == 0.0
    ensures p.dpadUp && !p.dpadDown ==> PadDisplacement(p).y == -Speed(p.buttonA)
    ensures p.dpadDown && !p.dpadUp ==> PadDisplacement(p).y == Speed(p.buttonA)
    ensures p.dpadRight && !p.dpadLeft ==> PadDisplacement(p).x == Speed(p.buttonA)
    ensures p.dpadLeft && !p.dpadRight ==> PadDisplacement(p).x == -Speed(p.buttonA)
  {
  }

  /** A non-zero thumbstick makes the D-pad irrelevant, and moves the actor
      by the stick times the speed with the stick's y axis flipped. */
  lemma StickOverridesDPad(p: Pad, q: Pad)
    requires p.stick != Origin
    requires q.stick == p.stick && q.buttonA == p.buttonA
    ensures PadDisplacement(p) == PadDisplacement(q)
    ensures PadDisplacement(p).x == p.stick.x * Speed(p.buttonA)
    ensures PadDisplacement(p).y == -(p.stick.y * Speed(p.buttonA))
  {
  }
}
