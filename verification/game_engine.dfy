/** The 2D platformer engine of `useGameEngine`: the object and state
    records, the AABB test `checkCollision`, and one frame of the game
    loop as a pure function `Tick(state, keys, cfg)`.

    A frame runs, in this order: horizontal input and friction; a jump
    gated by the grounded or double-jump flag; gravity, then the position
    update; the landing-from-above snap against platforms; the grounded
    and double-jump flag reset; the centred camera; the fall-off respawn.
    Only the first object of kind Player moves; nothing else is touched. */
module GameEngine {
  import opened Options
  import opened KeyLatch
  import opened RealMath

  datatype Kind = Player | Platform | Portal | Enemy | Item

  /** An optional hit box, relative to the object's top-left corner. */
  datatype CollisionBox = CollisionBox(offsetX: real, offsetY: real, width: real, height: real)

  /** One object of the stage; `y` grows downwards. */
  datatype GameObject = GameObject(
    id: string,
    x: real, y: real,
    width: real, height: real,
    velocityX: real, velocityY: real,
    kind: Kind,
    collisionBox: Option<CollisionBox>)

  datatype PlayerState = PlayerState(
    isJumping: bool,
    isGrounded: bool,
    facingRight: bool,
    canDoubleJump: bool)

  datatype Camera = Camera(x: real, y: real)

  datatype GameState = GameState(objects: seq<GameObject>, camera: Camera, playerState: PlayerState)

  /** The hook's parameters: viewport size and the three tunables. */
  datatype Config = Config(width: real, height: real, gravity: real, jumpPower: real, moveSpeed: real)

  const DefaultGravity: real := 0.5
  const DefaultJumpPower: real := 12.0
  const DefaultMoveSpeed: real := 5.0
  /** Horizontal velocity kept per frame when no direction key is held. */
  const Friction: real := 0.8
  const RespawnX: real := 100.0
  const RespawnY: real := 100.0

  /** The hook called with only a viewport size. */
  function DefaultConfig(width: real, height: real): (c: Config)
    ensures c.width == width && c.height == height
    ensures c.gravity == 0.5 && c.jumpPower == 12.0 && c.moveSpeed == 5.0
  {
    Config(width, height, DefaultGravity, DefaultJumpPower, DefaultMoveSpeed)
  }

  /** The state before the stage is loaded: no objects, camera at the
      origin, standing, facing right, double jump available. */
  const InitialState: GameState :=
    GameState([], Camera(0.0, 0.0), PlayerState(false, true, true, true))

  // ---------------------------------------------------------------------
  // Collision

  /** The hit box used by the collision test: the object's own box when it
      has one, else its full width and height. */
  function BoxOf(o: GameObject): CollisionBox {
    o.collisionBox.GetOr(CollisionBox(0.0, 0.0, o.width, o.height))
  }

  function Left(o: GameObject): real { o.x + BoxOf(o).offsetX }
  function Right(o: GameObject): real { Left(o) + BoxOf(o).width }
  function Top(o: GameObject): real { o.y + BoxOf(o).offsetY }
  function Bottom(o: GameObject): real { Top(o) + BoxOf(o).height }

  /** `checkCollision`: strict overlap of the two hit boxes on both axes. */
  predicate CheckCollision(a: GameObject, b: GameObject) {
    && Left(a) < Right(b)
    && Right(a) > Left(b)
    && Top(a) < Bottom(b)
    && Bottom(a) > Top(b)
  }

  /** The point lies strictly inside the object's hit box. */
  predicate Inside(o: GameObject, px: real, py: real) {
    Left(o) < px < Right(o) && Top(o) < py < Bottom(o)
  }

  predicate PositiveBox(o: GameObject) {
    BoxOf(o).width > 0.0 && BoxOf(o).height > 0.0
  }

  /** For any two boxes, whatever their size, `checkCollision` is
      symmetric, and boxes that only share an edge do not collide. */
  lemma CollisionSymmetricNoEdgeContact(a: GameObject, b: GameObject)
    ensures CheckCollision(a, b) <==> CheckCollision(b, a)
    ensures Right(a) == Left(b) || Bottom(a) == Top(b) ==> !CheckCollision(a, b)
  {
  }

  /** For boxes of positive size, `checkCollision` holds exactly when some
      point lies strictly inside both boxes. */
  lemma CollisionIffSharedInterior(a: GameObject, b: GameObject)
    requires PositiveBox(a) && PositiveBox(b)
    ensures CheckCollision(a, b) <==> exists px, py :: Inside(a, px, py) && Inside(b, px, py)
  {
    if CheckCollision(a, b) {
      var px := (Max(Left(a), Left(b)) + Min(Right(a), Right(b))) / 2.0;
      var py := (Max(Top(a), Top(b)) + Min(Bottom(a), Bottom(b))) / 2.0;
      assert Inside(a, px, py) && Inside(b, px, py);
    }
  }

  // ---------------------------------------------------------------------
  // Input

  predicate LeftHeld(keys: KeyMap) { Held(keys, "arrowleft") || Held(keys, "a") }
  predicate RightHeld(keys: KeyMap) { Held(keys, "arrowright") || Held(keys, "d") }
  predicate JumpHeld(keys: KeyMap) { Held(keys, "arrowup") || Held(keys, "w") || Held(keys, " ") }

  // ---------------------------------------------------------------------
  // The steps of one frame

  /** Step 1: left beats right; with neither, friction scales the
      horizontal velocity and the facing is kept. */
  function Horizontal(p: GameObject, ps: PlayerState, keys: KeyMap, cfg: Config): (r: (GameObject, PlayerState))
    ensures LeftHeld(keys) ==> r.0.velocityX == -cfg.moveSpeed && !r.1.facingRight
    ensures !LeftHeld(keys) && RightHeld(keys) ==> r.0.velocityX == cfg.moveSpeed && r.1.facingRight
    ensures !LeftHeld(keys) && !RightHeld(keys) ==>
              r.0.velocityX == p.velocityX * Friction && r.1.facingRight == ps.facingRight
    ensures r.0 == p.(velocityX := r.0.velocityX)
    ensures r.1 == ps.(facingRight := r.1.facingRight)
  {
    if LeftHeld(keys) then (p.(velocityX := -cfg.moveSpeed), ps.(facingRight := false))
    else if RightHeld(keys) then (p.(velocityX := cfg.moveSpeed), ps.(facingRight := true))
    else (p.(velocityX := p.velocityX * Friction), ps)
  }

  /** The jump fires when a jump key is held and the player is grounded
      or still has the double jump. */
  predicate JumpFires(ps: PlayerState, keys: KeyMap) {
    JumpHeld(keys) && (ps.isGrounded || ps.canDoubleJump)
  }

  /** Step 2: the jump impulse. A jump from the air uses up the double
      jump; a jump from the ground leaves it as it was. */
  function Jump(p: GameObject, ps: PlayerState, keys: KeyMap, cfg: Config): (r: (GameObject, PlayerState))
    ensures JumpFires(ps, keys) ==>
              && r.0 == p.(velocityY := -cfg.jumpPower)
              && r.1.isJumping && !r.1.isGrounded
              && r.1.canDoubleJump == (ps.isGrounded && ps.canDoubleJump)
              && r.1.facingRight == ps.facingRight
    ensures !JumpFires(ps, keys) ==> r == (p, ps)
  {
    if JumpFires(ps, keys) then
      var ps1 := if !ps.isGrounded && ps.canDoubleJump then ps.(canDoubleJump := false) else ps;
      (p.(velocityY := -cfg.jumpPower), ps1.(isJumping := true, isGrounded := false))
    else (p, ps)
  }

  /** Step 3: gravity is added to the vertical velocity first, then both
      velocities are added to the position (so the new position uses the
      new vertical velocity). */
  function Integrate(p: GameObject, gravity: real): (r: GameObject)
    ensures r.velocityY == p.velocityY + gravity
    ensures r.x == p.x + r.velocityX && r.y == p.y + r.velocityY
    ensures r == p.(x := r.x, y := r.y, velocityY := r.velocityY)
  {
    var vy := p.velocityY + gravity;
    p.(velocityY := vy, x := p.x + p.velocityX, y := p.y + vy)
  }

  /** Steps 1 to 3: the player and flags before collision handling. */
  function Moved(p: GameObject, ps: PlayerState, keys: KeyMap, cfg: Config): (GameObject, PlayerState) {
    var (p1, ps1) := Horizontal(p, ps, keys, cfg);
    var (p2, ps2) := Jump(p1, ps1, keys, cfg);
    (Integrate(p2, cfg.gravity), ps2)
  }

  /** A platform catches the player: the boxes overlap, the player moves
      down, and its top is above the platform's top. */
  predicate SnapsOn(p: GameObject, o: GameObject) {
    o.kind == Platform && CheckCollision(p, o) && p.velocityY > 0.0 && p.y < o.y
  }

  /** The player standing on the platform: bottom on the platform's top,
      vertical velocity zero. */
  function Snap(p: GameObject, o: GameObject): (r: GameObject)
    ensures r.y + r.height == o.y && r.velocityY == 0.0
    ensures r == p.(y := r.y, velocityY := r.velocityY)
  {
    p.(y := o.y - p.height, velocityY := 0.0)
  }

  /** Step 4: the landing scan over the objects in list order. The flag
      is whether some platform caught the player. */
  function Land(p: GameObject, objs: seq<GameObject>): (r: (GameObject, bool))
    ensures r.0 == p.(y := r.0.y, velocityY := r.0.velocityY)
    ensures !r.1 ==> r.0 == p
    ensures r.1 ==> exists j :: 0 <= j < |objs| && SnapsOn(p, objs[j]) && r.0 == Snap(p, objs[j])
    decreases |objs|
  {
    if |objs| == 0 then (p, false)
    else
      var o := objs[0];
      var hit := SnapsOn(p, o);
      var p1 := if hit then Snap(p, o) else p;
      var (p2, g) := Land(p1, objs[1..]);
      assert g ==> exists j :: 1 <= j < |objs| && SnapsOn(p1, objs[j]) && p2 == Snap(p1, objs[j]) by {
        if g {
          var j :| 0 <= j < |objs[1..]| && SnapsOn(p1, objs[1..][j]) && p2 == Snap(p1, objs[1..][j]);
          assert objs[1..][j] == objs[j + 1];
        }
      }
      (p2, g || hit)
  }

  /** Step 5: the grounded flag is the landing flag; a landing restores
      the double jump and ends the jump. */
  function Settle(ps: PlayerState, grounded: bool): (r: PlayerState)
    ensures r.isGrounded == grounded && r.facingRight == ps.facingRight
    ensures grounded ==> r.canDoubleJump && !r.isJumping
    ensures !grounded ==> r == ps.(isGrounded := false)
  {
    if grounded then ps.(isGrounded := true, canDoubleJump := true, isJumping := false)
    else ps.(isGrounded := false)
  }

  /** Step 6: the camera puts the player at the centre of the viewport. */
  function CenterCamera(p: GameObject, cfg: Config): (c: Camera)
    ensures c.x + cfg.width / 2.0 == p.x && c.y + cfg.height / 2.0 == p.y
  {
    Camera(p.x - cfg.width / 2.0, p.y - cfg.height / 2.0)
  }

  /** Step 7: below twice the viewport height the player is put back at
      the respawn point with no vertical velocity. */
  function Respawn(p: GameObject, cfg: Config): (r: GameObject)
    ensures p.y > cfg.height * 2.0 ==> r == p.(x := RespawnX, y := RespawnY, velocityY := 0.0)
    ensures p.y <= cfg.height * 2.0 ==> r == p
  {
    if p.y > cfg.height * 2.0 then p.(x := RespawnX, y := RespawnY, velocityY := 0.0) else p
  }

  // ---------------------------------------------------------------------
  // The frame

  /** `objects.find(o => o.type === 'player')`, as an index. */
  function FindPlayer(objs: seq<GameObject>): (r: Option<nat>)
    ensures r.Some? ==> r.value < |objs| && objs[r.value].kind == Player
    ensures r.Some? ==> forall k :: 0 <= k < r.value ==> objs[k].kind != Player
    ensures r.None? <==> forall k :: 0 <= k < |objs| ==> objs[k].kind != Player
  {
    FindPlayerFrom(objs, 0)
  }

  function FindPlayerFrom(objs: seq<GameObject>, from: nat): (r: Option<nat>)
    requires from <= |objs|
    ensures r.Some? ==> from <= r.value < |objs| && objs[r.value].kind == Player
    ensures r.Some? ==> forall k :: from <= k < r.value ==> objs[k].kind != Player
    ensures r.None? <==> forall k :: from <= k < |objs| ==> objs[k].kind != Player
    decreases |objs| - from
  {
    if from == |objs| then None
    else if objs[from].kind == Player then Some(from)
    else FindPlayerFrom(objs, from + 1)
  }

  /** The player after the whole frame, the landing flag, and the camera,
      for the player at index `i`. */
  function Frame(s: GameState, i: nat, keys: KeyMap, cfg: Config): (GameObject, PlayerState, Camera)
    requires i < |s.objects|
  {
    var (m, mps) := Moved(s.objects[i], s.playerState, keys, cfg);
    var (landed, grounded) := Land(m, s.objects);
    (Respawn(landed, cfg), Settle(mps, grounded), CenterCamera(landed, cfg))
  }

  /** One frame of the game loop. Without a player the state is returned
      unchanged; otherwise only the player object, the player flags and
      the camera change. */
  function Tick(s: GameState, keys: KeyMap, cfg: Config): (r: GameState)
    ensures FindPlayer(s.objects).None? ==> r == s
    ensures |r.objects| == |s.objects|
    ensures FindPlayer(s.objects).Some? ==>
              var i := FindPlayer(s.objects).value;
              && (forall k :: 0 <= k < |s.objects| && k != i ==> r.objects[k] == s.objects[k])
              && r.objects[i].id == s.objects[i].id
              && r.objects[i].kind == Player
              && r.objects[i].width == s.objects[i].width
              && r.objects[i].height == s.objects[i].height
              && r.objects[i].collisionBox == s.objects[i].collisionBox
  {
    match FindPlayer(s.objects)
    case None => s
    case Some(i) =>
      var (p, ps, cam) := Frame(s, i, keys, cfg);
      GameState(s.objects[i := p], cam, ps)
  }

  /** Before the stage is loaded the list holds no player, so the game
      loop's frame leaves the initial state as it is. */
  lemma InitialStateIdle(keys: KeyMap, cfg: Config)
    ensures InitialState.objects == [] && InitialState.camera == Camera(0.0, 0.0)
    ensures var ps := InitialState.playerState;
            !ps.isJumping && ps.isGrounded && ps.facingRight && ps.canDoubleJump
    ensures Tick(InitialState, keys, cfg) == InitialState
  {
  }
}
