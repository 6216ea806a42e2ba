/** Properties of one frame of the 2D engine: the landing scan, the flag
    transitions, the motion of the player, the camera and respawn, the
    horizontal speed bound and the resting fixed point. */
module GameEngineProps {
  import opened Options
  import opened KeyLatch
  import opened GameEngine

  /** The first object from index `from` on that catches the player, as
      an independent reference for the landing scan. */
  function FirstSnap(p: GameObject, objs: seq<GameObject>, from: nat): (r: Option<nat>)
    requires from <= |objs|
    ensures r.Some? ==> from <= r.value < |objs| && SnapsOn(p, objs[r.value])
    ensures r.Some? ==> forall k :: from <= k < r.value ==> !SnapsOn(p, objs[k])
    ensures r.None? <==> forall k :: from <= k < |objs| ==> !SnapsOn(p, objs[k])
    decreases |objs| - from
  {
    if from == |objs| then None
    else if SnapsOn(p, objs[from]) then Some(from)
    else FirstSnap(p, objs, from + 1)
  }

  /** When platform `j` is the first to catch the player, the scan snaps
      the player onto it; the zero vertical velocity after the snap stops
      every later platform from catching it again. */
  lemma {:induction false} LandOnFirst(p: GameObject, objs: seq<GameObject>, j: nat)
    requires j < |objs| && SnapsOn(p, objs[j])
    requires forall k :: 0 <= k < j ==> !SnapsOn(p, objs[k])
    ensures Land(p, objs) == (Snap(p, objs[j]), true)
    decreases |objs|
  {
    var rest := objs[1..];
    if j == 0 {
      var p1 := Snap(p, objs[0]);
      assert forall k :: 0 <= k < |rest| ==> !SnapsOn(p1, rest[k]);
    } else {
      assert !SnapsOn(p, objs[0]);
      forall k | 0 <= k < j - 1 ensures !SnapsOn(p, rest[k]) {
        assert rest[k] == objs[k + 1];
      }
      assert rest[j - 1] == objs[j];
      LandOnFirst(p, rest, j - 1);
    }
  }

  /** The landing scan agrees with the reference: it catches the player
      exactly when some platform satisfies the snap condition against the
      player as it entered the scan, and then the first such platform in
      list order decides the position. Objects that are not platforms
      never move the player. */
  lemma LandFirstSnap(p: GameObject, objs: seq<GameObject>)
    ensures Land(p, objs) == match FirstSnap(p, objs, 0)
                             case None => (p, false)
                             case Some(j) => (Snap(p, objs[j]), true)
    ensures Land(p, objs).1 <==> exists j :: 0 <= j < |objs| && SnapsOn(p, objs[j])
    ensures Land(p, objs).1 ==>
              exists j :: && 0 <= j < |objs| && SnapsOn(p, objs[j])
                          && (forall k :: 0 <= k < j ==> !SnapsOn(p, objs[k]))
                          && Land(p, objs).0 == Snap(p, objs[j])
    ensures (forall k :: 0 <= k < |objs| ==> objs[k].kind != Platform) ==> Land(p, objs) == (p, false)
  {
    match FirstSnap(p, objs, 0)
    case None =>
    case Some(j) =>
      LandOnFirst(p, objs, j);
  }

  /** The player found by the frame, as entered into the landing scan. */
  function Candidate(s: GameState, keys: KeyMap, cfg: Config): GameObject
    requires FindPlayer(s.objects).Some?
  {
    Moved(s.objects[FindPlayer(s.objects).value], s.playerState, keys, cfg).0
  }

  /** After a frame the player is grounded exactly when some platform
      caught it. A landing sets the double jump and clears the jump;
      otherwise both keep the values the jump step left: a jump from the
      air uses up the double jump, and only a landing gives it back. */
  lemma TickFlags(s: GameState, keys: KeyMap, cfg: Config)
    requires FindPlayer(s.objects).Some?
    ensures var r := Tick(s, keys, cfg).playerState;
            var ps := s.playerState;
            && (r.isGrounded <==> exists j :: 0 <= j < |s.objects| && SnapsOn(Candidate(s, keys, cfg), s.objects[j]))
            && (r.isGrounded ==> r.canDoubleJump && !r.isJumping)
            && (!r.isGrounded ==> r.isJumping == (JumpFires(ps, keys) || ps.isJumping))
            && (!r.isGrounded ==>
                  r.canDoubleJump == (if JumpFires(ps, keys) then ps.isGrounded && ps.canDoubleJump else ps.canDoubleJump))
            && (JumpFires(ps, keys) && !ps.isGrounded && !r.isGrounded ==> !r.canDoubleJump)
            && (!ps.canDoubleJump && r.canDoubleJump ==> r.isGrounded)
  {
    var i := FindPlayer(s.objects).value;
    var (p1, ps1) := Horizontal(s.objects[i], s.playerState, keys, cfg);
    assert JumpFires(ps1, keys) == JumpFires(s.playerState, keys);
    LandFirstSnap(Candidate(s, keys, cfg), s.objects);
  }

  /** The horizontal rule as seen after the whole frame: landing and
      respawn never touch the horizontal velocity or the facing. */
  lemma TickHorizontal(s: GameState, keys: KeyMap, cfg: Config)
    requires FindPlayer(s.objects).Some?
    ensures var i := FindPlayer(s.objects).value;
            var p := s.objects[i];
            var r := Tick(s, keys, cfg);
            var q := r.objects[i];
            && (LeftHeld(keys) ==> q.velocityX == -cfg.moveSpeed && !r.playerState.facingRight)
            && (!LeftHeld(keys) && RightHeld(keys) ==> q.velocityX == cfg.moveSpeed && r.playerState.facingRight)
            && (!LeftHeld(keys) && !RightHeld(keys) ==>
                  q.velocityX == p.velocityX * Friction && r.playerState.facingRight == s.playerState.facingRight)
  {
  }

  /** The position and vertical velocity after a frame: either no
      platform caught the player and it moved by its velocity after
      gravity (a fired jump replaces the vertical velocity first), or a
      platform caught it and it stands on that platform's top with no
      vertical velocity; unless it fell below twice the viewport height,
      in which case it is back at the respawn point. */
  lemma TickMotion(s: GameState, keys: KeyMap, cfg: Config)
    requires FindPlayer(s.objects).Some?
    ensures var i := FindPlayer(s.objects).value;
            var p := s.objects[i];
            var r := Tick(s, keys, cfg);
            var q := r.objects[i];
            var vy := (if JumpFires(s.playerState, keys) then -cfg.jumpPower else p.velocityY) + cfg.gravity;
            var landed := Land(Candidate(s, keys, cfg), s.objects).0;
            var fell := landed.y > cfg.height * 2.0;
            && (fell ==> q.x == RespawnX && q.y == RespawnY && q.velocityY == 0.0)
            && (!fell ==> q.x == p.x + q.velocityX)
            && (!fell && !r.playerState.isGrounded ==> q.velocityY == vy && q.y == p.y + vy)
            && (!fell && r.playerState.isGrounded ==>
                  q.velocityY == 0.0 &&
                  exists j :: 0 <= j < |s.objects| && s.objects[j].kind == Platform && q.y + q.height == s.objects[j].y)
  {
    var i := FindPlayer(s.objects).value;
    var m := Candidate(s, keys, cfg);
    assert Tick(s, keys, cfg).objects[i] == Respawn(Land(m, s.objects).0, cfg);
    var (p1, ps1) := Horizontal(s.objects[i], s.playerState, keys, cfg);
    assert JumpFires(ps1, keys) == JumpFires(s.playerState, keys);
    if Land(m, s.objects).1 {
      var j :| 0 <= j < |s.objects| && SnapsOn(m, s.objects[j]) && Land(m, s.objects).0 == Snap(m, s.objects[j]);
      assert s.objects[j].kind == Platform;
    }
  }

  /** The camera is centred on the player as it stands before the
      respawn check: in a frame without a fall it is centred on the new
      player, and in a fall frame it still shows the place of the fall,
      not the respawn point. */
  lemma TickCamera(s: GameState, keys: KeyMap, cfg: Config)
    requires FindPlayer(s.objects).Some?
    ensures var i := FindPlayer(s.objects).value;
            var r := Tick(s, keys, cfg);
            var q := r.objects[i];
            var landed := Land(Candidate(s, keys, cfg), s.objects).0;
            var fell := landed.y > cfg.height * 2.0;
            && r.camera == CenterCamera(landed, cfg)
            && (!fell ==> r.camera.x + cfg.width / 2.0 == q.x && r.camera.y + cfg.height / 2.0 == q.y)
            && (fell ==> r.camera.y + cfg.height / 2.0 > cfg.height * 2.0 && q.y == RespawnY)
  {
  }

  /** With a non-negative move speed, a horizontal speed within the move
      speed stays within it; with no direction key it shrinks. */
  lemma TickSpeedBound(s: GameState, keys: KeyMap, cfg: Config)
    requires FindPlayer(s.objects).Some?
    requires cfg.moveSpeed >= 0.0
    ensures var i := FindPlayer(s.objects).value;
            var vx := s.objects[i].velocityX;
            var vx' := Tick(s, keys, cfg).objects[i].velocityX;
            && (-cfg.moveSpeed <= vx <= cfg.moveSpeed ==> -cfg.moveSpeed <= vx' <= cfg.moveSpeed)
            && (!LeftHeld(keys) && !RightHeld(keys) ==> (vx >= 0.0 ==> 0.0 <= vx' <= vx) && (vx <= 0.0 ==> vx <= vx' <= 0.0))
  {
    TickHorizontal(s, keys, cfg);
  }

  /** The frame keeps the list's kinds, so the next frame drives the same
      player. */
  lemma TickKeepsPlayer(s: GameState, keys: KeyMap, cfg: Config)
    ensures FindPlayer(Tick(s, keys, cfg).objects) == FindPlayer(s.objects)
  {
    var r := Tick(s, keys, cfg);
    if FindPlayer(s.objects).Some? {
      var i := FindPlayer(s.objects).value;
      assert forall k :: 0 <= k < |s.objects| ==> r.objects[k].kind == s.objects[k].kind;
    } else {
      assert r == s;
    }
  }

  /** A player standing still exactly on a platform's top, with no key
      held, stays where it is with no velocity and is grounded, provided
      gravity is positive and below the player's height and no platform
      earlier in the list catches it first. */
  lemma TickRestingFixedPoint(s: GameState, keys: KeyMap, cfg: Config, j: nat)
    requires FindPlayer(s.objects).Some?
    requires var p := s.objects[FindPlayer(s.objects).value];
             && j < |s.objects| && s.objects[j].kind == Platform
             && p.collisionBox.None? && s.objects[j].collisionBox.None?
             && p.y + p.height == s.objects[j].y
             && p.x < s.objects[j].x + s.objects[j].width && p.x + p.width > s.objects[j].x
             && s.objects[j].height >= 0.0
             && p.velocityX == 0.0 && p.velocityY == 0.0
             && 0.0 < cfg.gravity < p.height
             && p.y <= cfg.height * 2.0
             && forall k :: 0 <= k < j ==> !SnapsOn(Integrate(p, cfg.gravity), s.objects[k])
    requires Idle(keys)
    ensures var i := FindPlayer(s.objects).value;
            var r := Tick(s, keys, cfg);
            && r.objects == s.objects
            && r.playerState.isGrounded && r.playerState.canDoubleJump && !r.playerState.isJumping
            && r.playerState.facingRight == s.playerState.facingRight
  {
    var i := FindPlayer(s.objects).value;
    var p := s.objects[i];
    var m := Integrate(p, cfg.gravity);
    assert !LeftHeld(keys) && !RightHeld(keys) && !JumpHeld(keys);
    assert Moved(p, s.playerState, keys, cfg).0 == m;
    assert SnapsOn(m, s.objects[j]);
    LandOnFirst(m, s.objects, j);
    assert Land(m, s.objects).0 == p;
    assert Tick(s, keys, cfg).objects == s.objects[i := p];
  }
}
