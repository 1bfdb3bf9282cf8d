/**
 * The world state kept in globals by OpenGLMeshLoader.cpp: the player's lane
 * and X position, the perspective flag and camera pose, the row of bananas
 * and the bridge offset, and the callbacks that change them (Keyboard,
 * SpawnBananas, Idle, UpdatePositions, UpdateCamera).
 *
 * Positions are `real`s: float rounding is not modelled.
 */
module Game {

  /** The source's `Vector` class: three coordinates with value semantics. */
  datatype Vec3 = Vec3(x: real, y: real, z: real)
  {
    /** `v += value`: the same amount is added to every coordinate. */
    function AddToAll(value: real): (r: Vec3)
      ensures r.x - x == value && r.y - y == value && r.z - z == value
    {
      Vec3(x + value, y + value, z + value)
    }
  }

  /** Adding and then subtracting the same amount gives the vector back. */
  lemma AddToAllInverse(v: Vec3, value: real)
    ensures v.AddToAll(value).AddToAll(-value) == v
  {
  }

  /** Two `+=` in a row are one `+=` of the sum. */
  lemma AddToAllTwice(v: Vec3, a: real, b: real)
    ensures v.AddToAll(a).AddToAll(b) == v.AddToAll(a + b)
  {
  }

  // ---------------------------------------------------------------------
  // Constants of the source's globals
  // ---------------------------------------------------------------------

  /** The X coordinate of each lane, left to right (`xPositions`). */
  const XPositions: seq<real> := [0.6, 1.6, 2.4, 3.3, 4.1, 5.0]
  /** `xCount`, the number of lanes. */
  const XCount: int := 6
  /** The lane the player starts in (`LaneIndex = 2`). */
  const InitialLane: int := 2
  /** The height and first depth of the banana row and the gap between bananas. */
  const BananaY: real := 11.0
  const BananaZStart: real := 55.0
  const BananaSpacing: real := 10.0
  /** How far every banana moves towards the camera on each idle tick. */
  const BananaStep: real := 0.005
  /** How far the bridge moves on each frame, and the depth below which it is reset. */
  const BridgeSpeed: real := 0.006
  const BridgeResetBelow: real := -50.0
  /** The initial camera pose, before UpdateCamera has ever run. */
  const InitialEye: Vec3 := Vec3(2.5, 12.0, 64.0)
  const InitialAt: Vec3 := Vec3(0.0, 0.0, 0.0)
  /** Key code 27, which makes the program exit. */
  const Escape: char := 27 as char

  // ---------------------------------------------------------------------
  // Lane and perspective: what a key press does
  // ---------------------------------------------------------------------

  /** The part of the state that key presses change. */
  datatype Controls = Controls(lane: int, thirdPerson: bool)

  /**
   * The effect of one key: 'w' flips the perspective, 'a' and 'd' move one
   * lane left or right unless already at the edge; any other key changes nothing.
   */
  function OnKey(c: Controls, key: char): (r: Controls)
    ensures 0 <= c.lane < XCount ==> 0 <= r.lane < XCount
    ensures -1 <= r.lane - c.lane <= 1
    ensures key == 'w' ==> r.thirdPerson == !c.thirdPerson
    ensures key != 'w' ==> r.thirdPerson == c.thirdPerson
    ensures key != 'a' && key != 'd' ==> r.lane == c.lane
  {
    if key == 'w' then c.(thirdPerson := !c.thirdPerson)
    else if key == 'a' then (if c.lane > 0 then c.(lane := c.lane - 1) else c)
    else if key == 'd' then (if c.lane < XCount - 1 then c.(lane := c.lane + 1) else c)
    else c
  }

  /** The effect of a sequence of keys, pressed in order. */
  function OnKeys(c: Controls, keys: seq<char>): Controls
    decreases |keys|
  {
    if |keys| == 0 then c else OnKeys(OnKey(c, keys[0]), keys[1..])
  }

  /** `n` presses of the same key. */
  function Repeat(key: char, n: nat): (keys: seq<char>)
    ensures |keys| == n
  {
    if n == 0 then [] else [key] + Repeat(key, n - 1)
  }

  function Min(a: int, b: int): int { if a <= b then a else b }
  function Max(a: int, b: int): int { if a >= b then a else b }

  /** 'a' in the leftmost lane and 'd' in the rightmost lane clamp: nothing moves. */
  lemma EdgesClamp(c: Controls)
    ensures c.lane == 0 ==> OnKey(c, 'a') == c
    ensures c.lane == XCount - 1 ==> OnKey(c, 'd') == c
  {
  }

  /** Away from the edges, 'a' and 'd' move exactly one lane. */
  lemma InnerLanesMoveByOne(c: Controls)
    ensures 0 < c.lane ==> OnKey(c, 'a') == c.(lane := c.lane - 1)
    ensures c.lane < XCount - 1 ==> OnKey(c, 'd') == c.(lane := c.lane + 1)
  {
  }

  /** Pressing 'w' twice restores the perspective and never touches the lane. */
  lemma ToggleTwiceRestores(c: Controls)
    ensures OnKey(c, 'w').lane == c.lane
    ensures OnKey(OnKey(c, 'w'), 'w') == c
  {
  }

  /** From any lane in range, every sequence of key presses keeps the lane in range. */
  lemma {:induction false} KeysKeepLaneInRange(c: Controls, keys: seq<char>)
    requires 0 <= c.lane < XCount
    ensures 0 <= OnKeys(c, keys).lane < XCount
    decreases |keys|
  {
    if |keys| > 0 {
      KeysKeepLaneInRange(OnKey(c, keys[0]), keys[1..]);
    }
  }

  /** `n` presses of 'd' move right `n` lanes, stopping at the last lane. */
  lemma {:induction false} RightPresses(c: Controls, n: nat)
    requires 0 <= c.lane < XCount
    ensures OnKeys(c, Repeat('d', n)) == c.(lane := Min(c.lane + n, XCount - 1))
    decreases n
  {
    if n > 0 {
      RightPresses(OnKey(c, 'd'), n - 1);
    }
  }

  /** `n` presses of 'a' move left `n` lanes, stopping at lane 0. */
  lemma {:induction false} LeftPresses(c: Controls, n: nat)
    requires 0 <= c.lane < XCount
    ensures OnKeys(c, Repeat('a', n)) == c.(lane := Max(c.lane - n, 0))
    decreases n
  {
    if n > 0 {
      LeftPresses(OnKey(c, 'a'), n - 1);
    }
  }

  /** From the starting lane, five presses of 'd' end in the last lane. */
  lemma FiveRightsFromStart(thirdPerson: bool)
    ensures OnKeys(Controls(InitialLane, thirdPerson), "ddddd").lane == XCount - 1
  {
    assert "ddddd" == Repeat('d', 5);
    RightPresses(Controls(InitialLane, thirdPerson), 5);
  }

  // ---------------------------------------------------------------------
  // Camera
  // ---------------------------------------------------------------------

  /** The camera's eye position and the point it looks at. */
  datatype Camera = Camera(eye: Vec3, at: Vec3)

  /**
   * The fixed pose UpdateCamera selects: the eye follows the player's X in
   * both modes; third person sits further back and looks at the origin,
   * first person sits closer and looks ahead down the track.
   */
  function CameraFor(thirdPerson: bool, minionX: real): (cam: Camera)
    ensures cam.eye.x == minionX && cam.eye.y == 12.0
    ensures thirdPerson ==> cam.eye.z == 64.0 && cam.at == Vec3(0.0, 0.0, 0.0)
    ensures !thirdPerson ==> cam.eye.z == 45.0 && cam.at == Vec3(0.0, 2.0, -10.0)
  {
    if thirdPerson then Camera(Vec3(minionX, 12.0, 64.0), Vec3(0.0, 0.0, 0.0))
    else Camera(Vec3(minionX, 12.0, 45.0), Vec3(0.0, 2.0, -10.0))
  }

  // ---------------------------------------------------------------------
  // Bananas
  // ---------------------------------------------------------------------

  datatype Banana = Banana(x: real, y: real, z: real)

  /** The lane X for one `rand()` value (`xPositions[rand() % xCount]`). */
  function LaneX(roll: nat): (x: real)
    ensures x in XPositions
  {
    XPositions[roll % XCount]
  }

  /** The row that SpawnBananas builds, one banana per `rand()` value, in order. */
  function Spawned(rolls: seq<nat>): (bs: seq<Banana>)
    ensures |bs| == |rolls|
    decreases |rolls|
  {
    if |rolls| == 0 then []
    else
      var i := |rolls| - 1;
      Spawned(rolls[..i]) + [Banana(LaneX(rolls[i]), BananaY, BananaZStart - i as real * BananaSpacing)]
  }

  /** Banana `k` of a fresh row sits at height 11, depth 55 - 10k, in the lane of roll `k`. */
  lemma {:induction false} SpawnedAt(rolls: seq<nat>, k: nat)
    requires k < |rolls|
    ensures Spawned(rolls)[k] == Banana(LaneX(rolls[k]), BananaY, BananaZStart - k as real * BananaSpacing)
    decreases |rolls|
  {
    var i := |rolls| - 1;
    if k < i {
      SpawnedAt(rolls[..i], k);
    }
  }

  /** A row of bananas: all at height 11, in lanes, 10 apart in depth. */
  ghost predicate InRow(bs: seq<Banana>)
  {
    forall k :: 0 <= k < |bs| ==>
      bs[k].y == BananaY && bs[k].x in XPositions && bs[k].z == bs[0].z - k as real * BananaSpacing
  }

  /** A freshly spawned row is a row, and it starts at depth 55. */
  lemma SpawnedIsRow(rolls: seq<nat>)
    ensures InRow(Spawned(rolls))
    ensures |rolls| > 0 ==> Spawned(rolls)[0].z == BananaZStart
  {
    forall k | 0 <= k < |rolls| {
      SpawnedAt(rolls, k);
    }
  }

  /** One banana after one idle tick. */
  function Nudged(b: Banana): (r: Banana)
    ensures r.x == b.x && r.y == b.y && r.z > b.z
  {
    b.(z := b.z + BananaStep)
  }

  /** The row after one idle tick: every banana moved by the same step. */
  function Advanced(bs: seq<Banana>): (r: seq<Banana>)
    ensures |r| == |bs|
    decreases |bs|
  {
    if |bs| == 0 then [] else Advanced(bs[..|bs| - 1]) + [Nudged(bs[|bs| - 1])]
  }

  /** An idle tick keeps order, X and Y of every banana and adds the step to its Z. */
  lemma {:induction false} AdvancedAt(bs: seq<Banana>, k: nat)
    requires k < |bs|
    ensures Advanced(bs)[k] == Banana(bs[k].x, bs[k].y, bs[k].z + BananaStep)
    decreases |bs|
  {
    if k < |bs| - 1 {
      AdvancedAt(bs[..|bs| - 1], k);
    }
  }

  /** An idle tick keeps a row a row. */
  lemma AdvancedKeepsRow(bs: seq<Banana>)
    requires InRow(bs)
    ensures InRow(Advanced(bs))
  {
    var r := Advanced(bs);
    forall k | 0 <= k < |bs|
      ensures r[k].y == BananaY && r[k].x in XPositions && r[k].z == r[0].z - k as real * BananaSpacing
    {
      AdvancedAt(bs, k);
      AdvancedAt(bs, 0);
    }
  }

  // ---------------------------------------------------------------------
  // Bridge
  // ---------------------------------------------------------------------

  /** One UpdatePositions step; from a non-negative offset the reset never fires. */
  function BridgeStep(z: real): (r: real)
    ensures z >= 0.0 ==> r == z + BridgeSpeed && r > z
  {
    var moved := z + BridgeSpeed;
    if moved < BridgeResetBelow then 0.0 else moved
  }

  /** The bridge offset after `frames` frames, starting from 0. */
  function BridgeAfter(frames: nat): real
  {
    if frames == 0 then 0.0 else BridgeStep(BridgeAfter(frames - 1))
  }

  /** After `frames` frames the bridge has moved exactly `frames` steps. */
  lemma {:induction false} BridgeAfterFrames(frames: nat)
    ensures BridgeAfter(frames) == frames as real * BridgeSpeed
  {
    if frames > 0 {
      BridgeAfterFrames(frames - 1);
    }
  }

  /** The bridge offset strictly increases from frame to frame. */
  lemma BridgeIncreases(m: nat, n: nat)
    requires m < n
    ensures 0.0 <= BridgeAfter(m) < BridgeAfter(n)
  {
    BridgeAfterFrames(m);
    BridgeAfterFrames(n);
  }

  // ---------------------------------------------------------------------
  // The globals and the callbacks that change them
  // ---------------------------------------------------------------------

  class World {
    var laneIndex: int
    var minionX: real
    var isThirdPerson: bool
    var eye: Vec3
    var at: Vec3
    var bananas: seq<Banana>
    var bridgePositionZ: real

    /** The lane is in range, the player stands in it, the bridge is not behind its start, the bananas form a row. */
    ghost predicate Valid()
      reads this
      ensures Valid() ==> minionX in XPositions && forall b :: b in bananas ==> b.x in XPositions
    {
      0 <= laneIndex < XCount && minionX == XPositions[laneIndex] &&
      bridgePositionZ >= 0.0 && InRow(bananas)
    }

    function ControlState(): Controls
      reads this
    {
      Controls(laneIndex, isThirdPerson)
    }

    /** The globals' initial values. */
    constructor ()
      ensures Valid()
      ensures laneIndex == InitialLane && minionX == 2.4 && isThirdPerson
      ensures eye == InitialEye && at == InitialAt
      ensures bananas == [] && bridgePositionZ == 0.0
    {
      laneIndex := InitialLane;
      minionX := 2.4;
      isThirdPerson := true;
      eye := InitialEye;
      at := InitialAt;
      bananas := [];
      bridgePositionZ := 0.0;
    }

    /**
     * Replaces the bananas with `count` new ones; `rolls` are the values
     * `rand()` returns, one per banana.
     */
    method SpawnBananas(count: int, rolls: seq<nat>)
      requires Valid()
      requires count <= |rolls|
      modifies this`bananas
      ensures Valid()
      ensures bananas == Spawned(rolls[..Max(count, 0)])
    {
      bananas := [];
      var i := 0;
      while i < count
        invariant 0 <= i <= Max(count, 0)
        invariant bananas == Spawned(rolls[..i])
      {
        var x := LaneX(rolls[i]);
        var z := BananaZStart - i as real * BananaSpacing;
        assert rolls[..i + 1][..i] == rolls[..i];
        bananas := bananas + [Banana(x, BananaY, z)];
        i := i + 1;
      }
      SpawnedIsRow(rolls[..i]);
    }

    /** The non-graphics part of the start-up: a row of ten bananas. */
    method Init(rolls: seq<nat>)
      requires Valid()
      requires 10 <= |rolls|
      modifies this`bananas
      ensures Valid()
      ensures |bananas| == 10 && bananas == Spawned(rolls[..10])
    {
      SpawnBananas(10, rolls);
    }

    /** Every banana moves one step towards the camera, in place. */
    method Idle()
      requires Valid()
      modifies this`bananas
      ensures Valid()
      ensures bananas == Advanced(old(bananas))
    {
      ghost var before := bananas;
      var i := 0;
      while i < |bananas|
        invariant 0 <= i <= |bananas| == |before|
        invariant forall k :: 0 <= k < i ==> bananas[k] == Nudged(before[k])
        invariant forall k :: i <= k < |bananas| ==> bananas[k] == before[k]
      {
        bananas := bananas[i := bananas[i].(z := bananas[i].z + BananaStep)];
        i := i + 1;
      }
      forall k | 0 <= k < |before|
        ensures bananas[k] == Advanced(before)[k]
      {
        AdvancedAt(before, k);
      }
      AdvancedKeepsRow(before);
    }

    /** Moves the bridge one step; the reset below -50 cannot fire from a valid state. */
    method UpdatePositions()
      requires Valid()
      modifies this`bridgePositionZ
      ensures Valid()
      ensures bridgePositionZ == BridgeStep(old(bridgePositionZ))
      ensures bridgePositionZ == old(bridgePositionZ) + BridgeSpeed
    {
      var moved := bridgePositionZ + BridgeSpeed;
      if moved < BridgeResetBelow {
        moved := 0.0;
      }
      bridgePositionZ := moved;
    }

    /** Sets the camera to the fixed pose of the current perspective. */
    method UpdateCamera()
      requires Valid()
      modifies this`eye, this`at
      ensures Valid()
      ensures Camera(eye, at) == CameraFor(isThirdPerson, minionX)
    {
      if isThirdPerson {
        eye := Vec3(minionX, 12.0, 64.0);
        at := Vec3(0.0, 0.0, 0.0);
      } else {
        eye := Vec3(minionX, 12.0, 45.0);
        at := Vec3(0.0, 2.0, -10.0);
      }
    }

    /**
     * The keyboard callback. Escape asks the program to exit (`quit`) and
     * changes nothing; 'a', 'd' and 'w' act as OnKey says, and 'w' also
     * re-poses the camera. Lane changes do not move the camera.
     */
    method Keyboard(button: char) returns (quit: bool)
      requires Valid()
      modifies this`laneIndex, this`minionX, this`isThirdPerson, this`eye, this`at
      ensures Valid()
      ensures quit <==> button == Escape
      ensures ControlState() == OnKey(old(ControlState()), button)
      ensures button == 'w' ==> Camera(eye, at) == CameraFor(isThirdPerson, minionX)
      ensures button != 'w' ==> eye == old(eye) && at == old(at)
      ensures button != 'a' && button != 'd' ==> minionX == old(minionX)
    {
      quit := false;
      if button == Escape {
        quit := true;
      } else if button == 'w' {
        isThirdPerson := !isThirdPerson;
        UpdateCamera();
      } else if button == 'a' {
        if laneIndex > 0 {
          laneIndex := laneIndex - 1;
          minionX := XPositions[laneIndex];
        }
      } else if button == 'd' {
        if laneIndex < XCount - 1 {
          laneIndex := laneIndex + 1;
          minionX := XPositions[laneIndex];
        }
      }
    }
  }
}
