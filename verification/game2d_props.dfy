/** Properties of the portal trigger and of the initial stage. */
module Game2DProps {
  import opened Options
  import opened KeyLatch
  import opened GameEngine
  import opened Game2D
  import opened RealMath
  import GameEngineProps

  /** The squared reach test is the source's root test: for the root `d`
      of the squared distance between the two top-left corners, a portal
      is in reach exactly when `d < 50`. */
  lemma InReachIsDistanceBelow50(player: GameObject, o: GameObject, d: real)
    requires d >= 0.0 && d * d == SquaredDistance(player.x, player.y, o.x, o.y)
    ensures InReach(player, o) <==> d < PortalRadius
  {
    RootBelowIffSquareBelow(d, SquaredDistance(player.x, player.y, o.x, o.y), PortalRadius);
  }

  /** Scanning two lists one after the other is scanning their
      concatenation. */
  lemma {:induction false} NavigationsAppend(player: GameObject, a: seq<GameObject>, b: seq<GameObject>, keys: KeyMap)
    ensures Navigations(player, a + b, keys) == Navigations(player, a, keys) + Navigations(player, b, keys)
    decreases |b|
  {
    if |b| > 0 {
      var b' := b[..|b| - 1];
      assert (a + b)[..|a + b| - 1] == a + b';
      assert (a + b)[|a + b| - 1] == b[|b| - 1];
      NavigationsAppend(player, a, b', keys);
    } else {
      assert a + b == a;
    }
  }

  /** A route is emitted exactly when some object of the list triggers
      with that route: only portals in reach, with a confirm key held and
      a route entry, emit anything. */
  lemma NavigationsMembership(player: GameObject, objs: seq<GameObject>, keys: KeyMap, e: string)
    ensures e in Navigations(player, objs, keys) <==>
              exists k :: 0 <= k < |objs| && Triggers(player, objs[k], keys) && Routes[objs[k].id] == e
  {
    if e in Navigations(player, objs, keys) {
      NavigationsSound(player, objs, keys, e);
    }
    if exists k :: 0 <= k < |objs| && Triggers(player, objs[k], keys) && Routes[objs[k].id] == e {
      var k :| 0 <= k < |objs| && Triggers(player, objs[k], keys) && Routes[objs[k].id] == e;
      NavigationsComplete(player, objs, keys, k);
    }
  }

  /** Every emitted route comes from a triggering object. */
  lemma {:induction false} NavigationsSound(player: GameObject, objs: seq<GameObject>, keys: KeyMap, e: string)
    requires e in Navigations(player, objs, keys)
    ensures exists k :: 0 <= k < |objs| && Triggers(player, objs[k], keys) && Routes[objs[k].id] == e
    decreases |objs|
  {
    var n := |objs| - 1;
    var init := objs[..n];
    var r0 := Navigations(player, init, keys);
    assert Navigations(player, objs, keys) == r0 + Emit(player, objs[n], keys);
    if e in r0 {
      NavigationsSound(player, init, keys, e);
      var k :| 0 <= k < n && Triggers(player, init[k], keys) && Routes[init[k].id] == e;
      assert objs[k] == init[k];
    } else {
      assert Triggers(player, objs[n], keys) && Routes[objs[n].id] == e;
    }
  }

  /** Every triggering object's route is emitted. */
  lemma {:induction false} NavigationsComplete(player: GameObject, objs: seq<GameObject>, keys: KeyMap, k: nat)
    requires k < |objs| && Triggers(player, objs[k], keys)
    ensures Routes[objs[k].id] in Navigations(player, objs, keys)
    decreases |objs|
  {
    var n := |objs| - 1;
    var init := objs[..n];
    var r0 := Navigations(player, init, keys);
    assert Navigations(player, objs, keys) == r0 + Emit(player, objs[n], keys);
    if k < n {
      assert init[k] == objs[k];
      NavigationsComplete(player, init, keys, k);
    }
  }

  /** A one-object scan emits what that object emits. */
  lemma NavigationsOne(player: GameObject, o: GameObject, keys: KeyMap)
    ensures Navigations(player, [o], keys) == Emit(player, o, keys)
  {
    assert [o][..0] == [];
  }

  /** Every triggering portal emits its own navigation, and two of them
      emit in list order: there is no single winner. */
  lemma NavigationsInOrder(player: GameObject, objs: seq<GameObject>, keys: KeyMap, k1: nat, k2: nat)
    requires k1 < k2 < |objs|
    requires Triggers(player, objs[k1], keys) && Triggers(player, objs[k2], keys)
    ensures var r := Navigations(player, objs, keys);
            exists t1, t2 :: 0 <= t1 < t2 < |r| && r[t1] == Routes[objs[k1].id] && r[t2] == Routes[objs[k2].id]
  {
    var pre := objs[..k2];
    var rest := objs[k2 + 1..];
    assert objs == pre + [objs[k2]] + rest;
    NavigationsAppend(player, pre + [objs[k2]], rest, keys);
    NavigationsAppend(player, pre, [objs[k2]], keys);
    NavigationsOne(player, objs[k2], keys);
    assert pre[k1] == objs[k1];
    NavigationsMembership(player, pre, keys, Routes[objs[k1].id]);
    var np := Navigations(player, pre, keys);
    var t1 :| 0 <= t1 < |np| && np[t1] == Routes[objs[k1].id];
    var r := Navigations(player, objs, keys);
    var tail := Navigations(player, rest, keys);
    assert r == np + [Routes[objs[k2].id]] + tail;
    assert r[t1] == Routes[objs[k1].id];
    assert r[|np|] == Routes[objs[k2].id];
  }

  /** A scan in which no object triggers emits nothing. */
  lemma NavigationsNone(player: GameObject, objs: seq<GameObject>, keys: KeyMap)
    requires forall k :: 0 <= k < |objs| ==> !Triggers(player, objs[k], keys)
    ensures Navigations(player, objs, keys) == []
  {
    var r := Navigations(player, objs, keys);
    if |r| > 0 {
      NavigationsMembership(player, objs, keys, r[0]);
    }
  }

  /** A scan in which exactly one object triggers emits exactly its
      route. */
  lemma NavigationsSingle(player: GameObject, objs: seq<GameObject>, keys: KeyMap, k: nat)
    requires k < |objs| && Triggers(player, objs[k], keys)
    requires forall k' :: 0 <= k' < |objs| && k' != k ==> !Triggers(player, objs[k'], keys)
    ensures Navigations(player, objs, keys) == [Routes[objs[k].id]]
  {
    var pre := objs[..k];
    var rest := objs[k + 1..];
    assert objs == pre + [objs[k]] + rest;
    forall j | 0 <= j < |pre| ensures !Triggers(player, pre[j], keys) {
      assert pre[j] == objs[j];
    }
    forall j | 0 <= j < |rest| ensures !Triggers(player, rest[j], keys) {
      assert rest[j] == objs[k + 1 + j];
    }
    NavigationsNone(player, pre, keys);
    NavigationsNone(player, rest, keys);
    NavigationsOne(player, objs[k], keys);
    NavigationsAppend(player, pre + [objs[k]], rest, keys);
    NavigationsAppend(player, pre, [objs[k]], keys);
  }

  /** The loaded stage has exactly one player, the first object, at
      (100, 200) and 40 by 40, and every portal of it has a route. */
  lemma InitialStageShape()
    ensures FindPlayer(InitialObjects) == Some(0)
    ensures forall k :: 0 < k < |InitialObjects| ==> InitialObjects[k].kind != Player
    ensures var p := InitialObjects[0];
            p.x == 100.0 && p.y == 200.0 && p.width == 40.0 && p.height == 40.0
    ensures forall k :: 0 <= k < |InitialObjects| && InitialObjects[k].kind == Portal ==>
              InitialObjects[k].id in Routes
  {
  }

  /** The route table and the stage agree: an id has a route exactly
      when some portal of the stage carries it, so no portal is dead and
      no route is unreachable; the loaded state is the initial state with
      the stage's objects. */
  lemma RoutesMatchStagePortals()
    ensures forall id :: id in Routes <==>
              exists k :: 0 <= k < |InitialObjects| && InitialObjects[k].kind == Portal && InitialObjects[k].id == id
    ensures InitialStage.objects == InitialObjects && InitialStage.camera == InitialState.camera
    ensures InitialStage.playerState == InitialState.playerState
  {
    assert InitialObjects[5].id == "portal-projects" && InitialObjects[5].kind == Portal;
    assert InitialObjects[6].id == "portal-about" && InitialObjects[6].kind == Portal;
    assert InitialObjects[7].id == "portal-blog" && InitialObjects[7].kind == Portal;
    assert InitialObjects[8].id == "portal-contact" && InitialObjects[8].kind == Portal;
  }

  /** The first frame after loading, with no key held: the player starts
      in the air (no platform is under its box yet), falls by the default
      gravity and is no longer grounded although the initial flags said
      it was; the camera centres on it. */
  lemma FirstFrameFromStage()
    ensures var r := Tick(InitialStage, Empty, StageConfig);
            && r.objects[0].y == 200.5 && r.objects[0].x == 100.0 && r.objects[0].velocityY == 0.5
            && !r.playerState.isGrounded
            && r.camera == Camera(100.0 - 400.0, 200.5 - 200.0)
  {
    InitialStageShape();
    var st := InitialStage;
    var ps := st.playerState;
    var p := InitialObjects[0];
    var m := p.(y := 200.5, velocityY := 0.5);
    assert Horizontal(p, ps, Empty, StageConfig) == (p, ps);
    assert Jump(p, ps, Empty, StageConfig) == (p, ps);
    assert Moved(p, ps, Empty, StageConfig) == (m, ps);
    NoSnapOnStage(m);
    GameEngineProps.LandFirstSnap(m, InitialObjects);
    assert Land(m, InitialObjects) == (m, false);
    assert Frame(st, 0, Empty, StageConfig) == (m, Settle(ps, false), CenterCamera(m, StageConfig));
  }

  /** The player dropped half a unit from its start is caught by no
      platform of the stage. */
  lemma NoSnapOnStage(m: GameObject)
    requires m == InitialObjects[0].(y := 200.5, velocityY := 0.5)
    ensures forall j :: 0 <= j < |InitialObjects| ==> !SnapsOn(m, InitialObjects[j])
  {
    forall j | 0 <= j < |InitialObjects|
      ensures !SnapsOn(m, InitialObjects[j])
    {
      var o := InitialObjects[j];
      assert o.kind != Platform || Bottom(m) <= Top(o) || Right(m) <= Left(o);
    }
  }

  /** The space bar is both a jump key and a confirm key: with the player
      30 units right of the projects portal and space pressed, the scan
      emits exactly the projects route, and a grounded player's jump
      fires in the same frame. */
  lemma SpaceAtProjectsPortal(ps: PlayerState)
    requires ps.isGrounded
    ensures var keys := KeyDown(Empty, " ");
            var objs := InitialObjects[0 := InitialObjects[0].(x := 380.0, y := 200.0)];
            && PortalEvents(objs, keys) == ["/projects"]
            && JumpFires(ps, keys)
  {
    Text.ToLowerIsLowerAndFixesLower(" ");
    var keys := KeyDown(Empty, " ");
    var objs := InitialObjects[0 := InitialObjects[0].(x := 380.0, y := 200.0)];
    var player := objs[0];
    assert FindPlayer(objs) == Some(0);
    assert Triggers(player, objs[5], keys);
    assert forall k :: 0 <= k < |objs| && k != 5 ==> !Triggers(player, objs[k], keys) by {
      forall k | 0 <= k < |objs| && k != 5
        ensures !Triggers(player, objs[k], keys)
      {
        assert objs[k].kind != Portal || !InReach(player, objs[k]);
      }
    }
    NavigationsSingle(player, objs, keys, 5);
  }

  /** With the player exactly 50 units from a portal nothing is emitted,
      whatever keys are held: the reach test is strict. */
  lemma PortalReachIsStrict(keys: KeyMap)
    ensures var objs := InitialObjects[0 := InitialObjects[0].(x := 300.0, y := 200.0)];
            PortalEvents(objs, keys) == []
  {
    var objs := InitialObjects[0 := InitialObjects[0].(x := 300.0, y := 200.0)];
    var player := objs[0];
    assert FindPlayer(objs) == Some(0);
    assert forall k :: 0 <= k < |objs| ==> !Triggers(player, objs[k], keys) by {
      forall k | 0 <= k < |objs|
        ensures !Triggers(player, objs[k], keys)
      {
        assert objs[k].kind != Portal || !InReach(player, objs[k]);
      }
    }
    NavigationsNone(player, objs, keys);
  }
}
