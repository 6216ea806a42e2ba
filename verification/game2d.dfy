/** The 2D stage of `Game2D`: the initial object list and the portal
    trigger, which scans the objects after each frame and emits a
    navigation to a fixed route for every portal that is within reach
    while a confirm key is held. Navigation is an emitted route string. */
module Game2D {
  import opened Options
  import opened KeyLatch
  import opened GameEngine
  import opened RealMath

  const StageWidth: real := 1200.0
  /** The viewport the stage passes to the engine. */
  const ViewWidth: real := 800.0
  const ViewHeight: real := 400.0

  /** The engine configuration of the stage: the viewport and defaults. */
  const StageConfig: Config := DefaultConfig(ViewWidth, ViewHeight)

  function Obj(id: string, x: real, y: real, w: real, h: real, kind: Kind): GameObject {
    GameObject(id, x, y, w, h, 0.0, 0.0, kind, None)
  }

  /** The stage loaded on mount: the player, the ground, three platforms
      and four portals. */
  const InitialObjects: seq<GameObject> := [
    Obj("player", 100.0, 200.0, 40.0, 40.0, Player),
    Obj("ground", 0.0, 350.0, StageWidth, 50.0, Platform),
    Obj("platform1", 300.0, 250.0, 150.0, 20.0, Platform),
    Obj("platform2", 550.0, 180.0, 150.0, 20.0, Platform),
    Obj("platform3", 800.0, 250.0, 150.0, 20.0, Platform),
    Obj("portal-projects", 350.0, 200.0, 50.0, 50.0, Portal),
    Obj("portal-about", 600.0, 130.0, 50.0, 50.0, Portal),
    Obj("portal-blog", 850.0, 200.0, 50.0, 50.0, Portal),
    Obj("portal-contact", 1050.0, 300.0, 50.0, 50.0, Portal)
  ]

  /** The engine state once the stage is loaded. */
  const InitialStage: GameState := InitialState.(objects := InitialObjects)

  /** The portal id to route table. */
  const Routes: map<string, string> := map[
    "portal-projects" := "/projects",
    "portal-about" := "/about",
    "portal-blog" := "/blog",
    "portal-contact" := "/contact"
  ]

  /** Reach of a portal, measured between top-left corners. */
  const PortalRadius: real := 50.0

  predicate ConfirmHeld(keys: KeyMap) { Held(keys, "enter") || Held(keys, " ") }

  /** `Math.sqrt(dx*dx + dy*dy) < 50`, squared on both sides. */
  predicate InReach(player: GameObject, o: GameObject) {
    SquaredDistance(player.x, player.y, o.x, o.y) < PortalRadius * PortalRadius
  }

  /** The portal fires a navigation in this scan. */
  predicate Triggers(player: GameObject, o: GameObject, keys: KeyMap) {
    o.kind == Portal && InReach(player, o) && ConfirmHeld(keys) && o.id in Routes
  }

  /** What one object contributes to the scan. */
  function Emit(player: GameObject, o: GameObject, keys: KeyMap): (r: seq<string>)
    ensures |r| <= 1
    ensures |r| == 1 <==> Triggers(player, o, keys)
    ensures |r| == 1 ==> r[0] == Routes[o.id]
  {
    if Triggers(player, o, keys) then [Routes[o.id]] else []
  }

  /** The navigations of a scan over `objs`, in list order. */
  function Navigations(player: GameObject, objs: seq<GameObject>, keys: KeyMap): (r: seq<string>)
    ensures |r| <= |objs|
    ensures forall t :: 0 <= t < |r| ==> r[t] in Routes.Values
    ensures !ConfirmHeld(keys) ==> r == []
    decreases |objs|
  {
    if |objs| == 0 then []
    else Navigations(player, objs[..|objs| - 1], keys) + Emit(player, objs[|objs| - 1], keys)
  }

  /** The portal effect over a whole state's object list: nothing without
      a player, else the navigations of the first player. */
  function PortalEvents(objs: seq<GameObject>, keys: KeyMap): (r: seq<string>)
    ensures FindPlayer(objs).None? ==> r == []
    ensures !ConfirmHeld(keys) ==> r == []
  {
    match FindPlayer(objs)
    case None => []
    case Some(i) => Navigations(objs[i], objs, keys)
  }

  /** The effect body as a loop over the objects, collecting the
      navigations it would request. */
  method ScanPortals(objs: seq<GameObject>, keys: KeyMap) returns (events: seq<string>)
    ensures events == PortalEvents(objs, keys)
  {
    var found := FindPlayer(objs);
    if found.None? {
      return [];
    }
    var player := objs[found.value];
    events := [];
    var i := 0;
    while i < |objs|
      invariant 0 <= i <= |objs|
      invariant events == Navigations(player, objs[..i], keys)
    {
      var o := objs[i];
      if o.kind == Portal {
        var dist2 := SquaredDistance(player.x, player.y, o.x, o.y);
        if dist2 < PortalRadius * PortalRadius && (Held(keys, "enter") || Held(keys, " ")) {
          if o.id in Routes {
            events := events + [Routes[o.id]];
          }
        }
      }
      assert objs[..i + 1][..i] == objs[..i];
      i := i + 1;
    }
    assert objs[..i] == objs;
  }
}
