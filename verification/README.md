# Cat-Quest portfolio: a Dafny model of its game and page logic

This project models the deterministic logic of the Cat-Quest portfolio site. The site is a React and Three.js portfolio in which a cat guides the visitor. The model covers:

- **The 2D platformer** (`useGameEngine`, `Game2D`):
  - the object and state records;
  - the strict AABB collision test;
  - one frame of the game loop, as a pure function of the state, the held keys and the configuration. The steps run in this order: horizontal input and friction, the jump, gravity and the position update, the landing-from-above snap, the grounded and double-jump flags, the centred camera, the fall-off respawn;
  - the initial stage;
  - the portal scan, which emits a route for every portal in reach while a confirm key is held.
- **The 3D plaza** (`catStore`, `Cat`, `BlackCat`, `CameraRig`, `Hotspot`, `CatItem`):
  - the clamped cat position;
  - the key latch and the key-to-velocity rule of both cats;
  - the rotate-only-when-moving guard and the black cat's walking flag and bob;
  - the 5% camera follow;
  - the planar "near" test, which gates clicks, colours and the instruction label.
- **Site helpers**:
  - `generateMeta`, with JavaScript's `||` defaults;
  - the low-performance decision of `detectLowPerformance` and the defaults of `getDeviceCapabilities`;
  - the blog frontmatter schema, as an accept/reject predicate over a JSON-like value with a parse and encode round trip;
  - the frontmatter built by the Notion export script, and its rule of skipping pages with no slug;
  - the one-flag UI store.

Conventions:

- JavaScript numbers are `real`.
- A test of the form `Math.sqrt(d) < r` is modelled as `d < r * r`. Lemmas prove the two forms agree (`RealMath.RootBelowIffSquareBelow` and its uses).
- Truthiness is written out:
  - a missing or empty string takes the default;
  - a missing or zero core count reads as 1 core (`|| 1`), which counts as low performance;
  - a missing or zero memory is skipped by the low-memory test and reported as unknown;
  - an empty keyword array still yields a `keywords` entry.
- A navigation is an emitted route string. A file written by the export is an emitted (slug, frontmatter) pair.
- The current time, `atan2`, `Math.sin` and the WebGL probes are parameters.

The engine in `useGameEngine` is deliberately simple, and the model keeps it so:

- the horizontal speed is set directly from the keys, with no acceleration, no air control and no speed clamp;
- the integration is semi-implicit: gravity first, then the position uses the new velocity;
- the only collision response is the landing from above;
- the camera is centred on the player, with no dead zone;
- a double jump has the full jump power;
- every portal in reach emits its own navigation, in list order.

## Model

| member | source | states |
|---|---|---|
| KeyLatch.KeyDown | src/hooks/useGameEngine.ts:64-71 | after a keydown the lower-cased key is held, and every other name keeps its presence and value |
| KeyLatch.KeyUp | src/hooks/useGameEngine.ts:73-75 | after a keyup the lower-cased key is present and not held, and every other name is unchanged |
| KeyLatch.Apply | src/components/scene/Cat.tsx:15-21 | the latch after a sequence of keydown and keyup events, each handled in arrival order |
| KeyLatch.ApplyKeepsLowerKeys | src/components/scene/Cat.tsx:15-21 | starting from lower-case names, any event sequence stores only lower-case names, so a name such as "ArrowLeft" is never held |
| KeyLatch.ApplyOtherKeys | src/components/scene/BlackCat.tsx:16-22 | events about other names never change whether a name is held |
| KeyLatch.LatestEventWins | src/components/scene/Cat.tsx:15-21 | the latest event about a key decides it: held after a down, released after an up, in either letter case |
| Text.ToLower | src/hooks/useGameEngine.ts:65 | lower-casing keeps the length and maps each character through the ASCII letter rule |
| Text.ToLowerIsLowerAndFixesLower | src/hooks/useGameEngine.ts:65 | lower-casing gives a lower-case string, leaves lower-case strings alone, and is idempotent |
| Text.Contains | src/lib/device.ts:21 | substring search is true exactly when the pattern occurs at some index |
| Text.Join | src/lib/seo.ts:25 | `join`: the elements with the separator between neighbours |
| Text.JoinAppend | src/lib/seo.ts:25 | joining appends the separator and the element for each further element; the empty list joins to "" |
| RealMath.RootBelowIffSquareBelow | src/components/game/Game2D.tsx:254-258 | for a non-negative root and a positive radius, root below radius is exactly square below radius squared |
| GameEngine.CheckCollision | src/hooks/useGameEngine.ts:87-97 | `checkCollision`: the two hit boxes, each the object's own box or else its full size, overlap strictly on both axes |
| GameEngine.CollisionSymmetricNoEdgeContact | src/hooks/useGameEngine.ts:87-97 | for boxes of any size, the test is symmetric, and boxes that only share an edge do not collide |
| GameEngine.CollisionIffSharedInterior | src/hooks/useGameEngine.ts:87-97 | for boxes of positive size, `checkCollision` holds exactly when some point is strictly inside both hit boxes |
| GameEngine.Horizontal | src/hooks/useGameEngine.ts:110-118 | left beats right (vx = -moveSpeed, facing left); right gives vx = moveSpeed facing right; otherwise vx is scaled by 0.8 and the facing is kept; nothing else changes |
| GameEngine.JumpFires | src/hooks/useGameEngine.ts:121-122 | a jump fires when a jump key (up, w or space) is held and the player is grounded or still has the double jump |
| GameEngine.Jump | src/hooks/useGameEngine.ts:121-129 | a fired jump sets vy = -jumpPower and jumping, clears grounded, and keeps the double jump only for a ground jump; an unfired jump changes nothing |
| GameEngine.Integrate | src/hooks/useGameEngine.ts:131-136 | gravity is added to vy first, then x and y advance by vx and the new vy |
| GameEngine.Moved | src/hooks/useGameEngine.ts:110-136 | the player and flags before collision handling: the horizontal step, then the jump, then gravity and the position update |
| GameEngine.SnapsOn | src/hooks/useGameEngine.ts:141-144 | a platform catches the player when it is a platform, the boxes collide, the player moves down, and its top is above the platform's top |
| GameEngine.Snap | src/hooks/useGameEngine.ts:144-147 | the snapped player's bottom is on the platform's top and vy is zero; only y and vy change |
| GameEngine.Land | src/hooks/useGameEngine.ts:139-151 | the landing scan changes only y and vy; with no landing the player is untouched; a landing is a snap on some platform that satisfies the snap condition |
| GameEngine.Settle | src/hooks/useGameEngine.ts:153-157 | grounded becomes the landing flag; a landing restores the double jump and ends the jump; the facing is kept |
| GameEngine.CenterCamera | src/hooks/useGameEngine.ts:159-161 | the camera plus half the viewport is the player's position |
| GameEngine.Respawn | src/hooks/useGameEngine.ts:163-168 | below twice the viewport height the player goes to (100, 100) with vy = 0 and vx kept; otherwise it is untouched |
| GameEngine.FindPlayer | src/hooks/useGameEngine.ts:106 | the index of the first object of kind player, or none exactly when there is no such object |
| GameEngine.Frame | src/hooks/useGameEngine.ts:108-169 | the step order of one frame: horizontal move, jump, gravity and position, landing scan, flags, camera on the landed player, then the respawn check |
| GameEngine.DefaultConfig | src/hooks/useGameEngine.ts:40-46 | the hook's defaults: the given viewport, gravity 0.5, jump power 12, move speed 5 |
| GameEngine.InitialStateIdle | src/hooks/useGameEngine.ts:48-58 | the initial state has no objects, the camera at the origin, and the player standing, facing right, with the double jump available; a frame on it changes nothing, since it holds no player |
| GameEngine.Tick | src/hooks/useGameEngine.ts:104-172 | without a player the state is returned unchanged; otherwise the list keeps its length, every other object is unchanged, and the player keeps its id, kind, size and hit box |
| GameEngineProps.LandFirstSnap | src/hooks/useGameEngine.ts:139-151 | a landing happens exactly when some platform satisfies the snap condition; the landing agrees with the reference first-snap definition, so the first such platform in list order decides the position, and objects that are not platforms never move the player |
| GameEngineProps.FirstSnap | src/hooks/useGameEngine.ts:139-151 | a reference definition of the first platform, from a given index on, that satisfies the snap condition: the result satisfies it and no earlier one does, and None means none does |
| GameEngineProps.LandOnFirst | src/hooks/useGameEngine.ts:139-151 | when a given platform is the first to satisfy the snap condition, the landing snaps the player onto it |
| GameEngineProps.TickFlags | src/hooks/useGameEngine.ts:121-157 | after a frame, grounded holds exactly when a platform caught the player; a landing sets the double jump and clears jumping; otherwise the flags keep their post-jump values, an air jump consumes the double jump, and only a landing restores it |
| GameEngineProps.TickHorizontal | src/hooks/useGameEngine.ts:110-118 | the horizontal rule seen after the whole frame: landing and respawn never touch vx or the facing |
| GameEngineProps.TickMotion | src/hooks/useGameEngine.ts:132-168 | a fall is decided on the landed player's y against twice the viewport height; a player who fell is at (100, 100) with vy = 0; otherwise x advances by the new vx; and either no landing happened and y advances by the post-gravity vy, or vy is 0 and the player's bottom is on a platform's top |
| GameEngineProps.TickCamera | src/hooks/useGameEngine.ts:159-168 | the camera is centred on the player as it stands before the respawn check: on the new player when there is no fall, and on the place of the fall in a fall frame |
| GameEngineProps.TickSpeedBound | src/hooks/useGameEngine.ts:110-118 | a horizontal speed within the move speed stays within it, and with no direction key it shrinks toward zero without changing sign |
| GameEngineProps.TickKeepsPlayer | src/hooks/useGameEngine.ts:104-108 | a frame keeps the index of the player, so the next frame drives the same object |
| GameEngineProps.TickRestingFixedPoint | src/hooks/useGameEngine.ts:132-157 | a player at rest exactly on a platform's top, with no key held and 0 < gravity < its height, stays put with vy = 0, and is grounded with the double jump available |
| Game2D.InReach | src/components/game/Game2D.tsx:254-258 | a portal is in reach when the distance between the two top-left corners is below 50 |
| Game2D.ConfirmHeld | src/components/game/Game2D.tsx:258 | the confirm keys are enter and space |
| Game2D.Triggers | src/components/game/Game2D.tsx:253-269 | an object fires a navigation when it is a portal in reach, enter or space is held, and its id has a route entry |
| Game2D.Emit | src/components/game/Game2D.tsx:253-269 | one object emits at most one route, exactly when it is a portal in reach with a confirm key held and a route entry, and that route is its table entry |
| Game2D.Navigations | src/components/game/Game2D.tsx:252-272 | the scan emits at most one route per object, only routes from the table, and nothing without enter or space held |
| Game2D.PortalEvents | src/components/game/Game2D.tsx:248-273 | the effect emits nothing without a player object or without a confirm key |
| Game2D.ScanPortals | src/components/game/Game2D.tsx:248-273 | the effect's loop over the objects collects exactly the navigations of the scan |
| Game2DProps.InReachIsDistanceBelow50 | src/components/game/Game2D.tsx:254-258 | a portal is in reach exactly when the top-left-corner distance is strictly below 50 |
| Game2DProps.NavigationsAppend | src/components/game/Game2D.tsx:252-272 | scanning a concatenation emits the first list's routes, then the second's |
| Game2DProps.NavigationsMembership | src/components/game/Game2D.tsx:253-269 | a route is emitted exactly when some object of the list triggers with that route |
| Game2DProps.NavigationsSound | src/components/game/Game2D.tsx:253-269 | every emitted route belongs to some object of the list that triggers |
| Game2DProps.NavigationsComplete | src/components/game/Game2D.tsx:253-269 | every object that triggers has its route emitted |
| Game2DProps.NavigationsInOrder | src/components/game/Game2D.tsx:252-272 | two triggering portals both emit, in list order: there is no single winner |
| Game2DProps.NavigationsNone | src/components/game/Game2D.tsx:252-272 | a scan in which nothing triggers emits nothing |
| Game2DProps.NavigationsSingle | src/components/game/Game2D.tsx:252-272 | a scan in which exactly one object triggers emits exactly its route |
| Game2DProps.InitialStageShape | src/components/game/Game2D.tsx:19-114 | the loaded stage has exactly one player, first, at (100, 200) and 40 by 40, and every portal has a route entry |
| Game2DProps.RoutesMatchStagePortals | src/components/game/Game2D.tsx:260-265 | an id has a route exactly when some portal of the stage carries it, so no portal is dead and no route unreachable; the loaded stage is the initial state with the stage's objects |
| Game2DProps.FirstFrameFromStage | src/components/game/Game2D.tsx:12-116 | the first idle frame on the stage leaves the player falling, at y = 200.5 with vy = 0.5, not grounded, with the camera at (-300, 0.5) |
| Game2DProps.NoSnapOnStage | src/hooks/useGameEngine.ts:139-151 | on the initial stage, a player just after the first physics step meets no platform's snap condition |
| Game2DProps.SpaceAtProjectsPortal | src/components/game/Game2D.tsx:258 | near the projects portal one space press emits exactly "/projects" and also fires a grounded player's jump |
| Game2DProps.PortalReachIsStrict | src/components/game/Game2D.tsx:254-258 | a player exactly 50 from a portal emits nothing, whatever keys are held |
| CatStore.Clamp | src/stores/catStore.ts:30 | the clamp lies in [-9, 9], fixes values inside it, and maps values beyond it to the nearer end |
| CatStore.UpdatePosition | src/stores/catStore.ts:26-35 | the new position is inside the square, y and the velocity are unchanged, and an in-bounds step is taken exactly |
| CatStore.SetPosition | src/stores/catStore.ts:37 | only the position is replaced |
| CatStore.SetVelocity | src/stores/catStore.ts:38 | only the velocity is replaced |
| CatStore.ClampIsNearest | src/stores/catStore.ts:30-32 | the clamp is the point of [-9, 9] nearest its argument, and clamping is idempotent |
| CatStore.RestingCatIsFixed | src/stores/catStore.ts:22-35 | a cat at rest inside the square does not move, and the initial state (0, 0.5, 0) at rest is such a state |
| CatControls.UpdateVelocity | src/components/scene/Cat.tsx:26-36 | back beats forward on z and right beats left on x, since the later assignment wins; with neither key of an axis held that component is 0 |
| CatControls.VelocityShape | src/components/scene/Cat.tsx:27-35 | each component is -speed, 0 or speed; the velocity is non-zero exactly when a movement key is held, and zero with no key held |
| CatControls.CatVelocity | src/components/scene/Cat.tsx:26-36 | the orange cat's velocity update, with speed 0.1 |
| CatControls.BlackCatVelocity | src/components/scene/BlackCat.tsx:27-35 | the black cat's velocity update, with speed 0.05 |
| CatControls.WalkAnimation | src/components/scene/BlackCat.tsx:37 | the black cat walks when its new velocity is non-zero |
| CatControls.WalkIffMovementKey | src/components/scene/BlackCat.tsx:27-38 | the black cat's walking flag holds exactly when a movement key is held; with no key held its velocity is zero and it does not walk |
| CatControls.MeshYaw | src/components/scene/Cat.tsx:54-57 | the mesh turns to the heading only while the velocity is non-zero, and otherwise keeps its yaw |
| CatControls.MeshY | src/components/scene/BlackCat.tsx:61-65 | a cat that is not walking sits at the store's y; a walking one bobs at most 0.05 above it |
| CatControls.IdleCatStaysPut | src/components/scene/BlackCat.tsx:27-65 | with no key held, one control period and one frame leave an in-bounds cat where it is, with the mesh at the store's height |
| CameraRig.Approach | src/components/scene/CameraRig.tsx:13 | one frame leaves 0.95 of the gap to the target, with the new value between the old value and the target |
| CameraRig.Follow | src/components/scene/CameraRig.tsx:8-14 | the x and z gaps to (cat.x, cat.z + 10) shrink to 0.95 with no overshoot, and y is untouched |
| CameraRig.RetainedPowBounds | src/components/scene/CameraRig.tsx:13-14 | powers of 0.95 lie in (0, 1] and do not grow |
| CameraRig.ApproachFramesShrink | src/components/scene/CameraRig.tsx:13 | frame after frame, each axis keeps 0.95 of its gap to the fixed target, so n frames shrink the first gap n times |
| CameraRig.ApproachFramesGap | src/components/scene/CameraRig.tsx:13 | after n frames the gap on one axis is 0.95^n of the first one |
| CameraRig.FollowFramesAxes | src/components/scene/CameraRig.tsx:13-14 | over many frames the rig moves x and z independently and never moves y |
| CameraRig.FollowFramesGap | src/components/scene/CameraRig.tsx:10-14 | with the cat still, after n frames both gaps are 0.95^n of the first ones, y is unchanged, and a camera at the target stays there |
| Proximity.IsNear | src/components/scene/Hotspot.tsx:25-30 | the cat is near when its planar x/z distance to the spot is below 2, as both `Hotspot` and `CatItem` compute it |
| Proximity.IsNearIsPlanarDistanceBelow2 | src/components/scene/Hotspot.tsx:25-30 | near holds exactly when the planar x/z distance is strictly below 2; the height is ignored; distance exactly 2 is not near |
| Proximity.HandleClick | src/components/scene/Hotspot.tsx:38-42 | a click yields the link exactly when near, and nothing otherwise |
| Proximity.HotspotMaterial | src/components/scene/Hotspot.tsx:54-56 | white only when hovered and near, else the given colour; glow (colour, 0.5) when near, else (black, 0) |
| Proximity.HotspotLabelColor | src/components/scene/Hotspot.tsx:66 | the label is white when near and #666666 otherwise |
| Proximity.CatItemLabelColor | src/components/scene/CatItem.tsx:160 | the label is #FBBF24 when near and #666666 otherwise |
| Proximity.Instruction | src/components/scene/Hotspot.tsx:75-88 | the "click to move" instruction is shown exactly when near |
| Proximity.ClickNavigatesOnlyWhenNear | src/components/scene/CatItem.tsx:25-43 | a click navigates exactly when the planar distance is below 2, and does so exactly when the instruction is shown |
| Proximity.NearnessDecidesView | src/components/scene/Hotspot.tsx:25-88 | below distance 2 the labels light up, the box glows and the instruction appears; at 2 or more none of these happens |
| Seo.OrDefault | src/lib/seo.ts:17 | a present, non-empty string is kept, and anything else becomes the default |
| Seo.BaseMeta | src/lib/seo.ts:15-23 | the eight fixed tags: the title carries the site name, missing or empty description and image take the defaults, the type defaults to "website" |
| Seo.GenerateMeta | src/lib/seo.ts:10-26 | the eight fixed keys are always present with the fixed tags' values, `canonical` only when truthy, `keywords` whenever a list is given, even an empty one |
| Seo.TitleCarriesSiteName | src/lib/seo.ts:16-19 | the title always ends with the site name and is the Open Graph title, the separator and the site name for a titled page; the two descriptions agree |
| Seo.KeywordsGrowBySeparator | src/lib/seo.ts:25 | one more keyword appends ", " and the keyword; an empty list gives an empty value; a missing list gives no key |
| Device.Cores | src/lib/device.ts:13 | the core count is at least 1 and is the reported count when that is present and non-zero |
| Device.MatchesSomeToken | src/lib/device.ts:21 | the agent matches exactly when some token occurs in it, ignoring case |
| Device.MobileTest | src/lib/device.ts:21 | the token scan answers exactly the mobile pattern: some token occurs in the agent, ignoring case |
| Device.LowMemoryReported | src/lib/device.ts:17-18 | the memory test: a present, non-zero memory below 4 |
| Device.IsMobile | src/lib/device.ts:21 | the mobile pattern: some alternative occurs in the agent, ignoring case |
| Device.DetectLowPerformance | src/lib/device.ts:11-24 | two or fewer cores or a reported memory below 4 mean low performance; otherwise the result is the mobile test on the agent |
| Device.GetDeviceCapabilities | src/lib/device.ts:26-40 | cores default to 1, memory is unknown exactly when missing or zero, and the low-performance flag is the decision rule |
| Device.MissingFieldsDefaults | src/lib/device.ts:13-18 | a missing core count means one core and low performance; a missing or zero memory never decides the result |
| Device.ToLowerAppend | src/lib/device.ts:21 | lower-casing distributes over concatenation |
| Device.TokenMatchIsMobile | src/lib/device.ts:21 | a token found in the lower-cased agent makes the agent mobile |
| Device.MobileSurvivesContext | src/lib/device.ts:21 | a mobile agent stays mobile with any text added before or after it |
| Device.IPhoneToken | src/lib/device.ts:21 | one of the pattern's alternatives is "iphone" once lower-cased |
| Device.IPhoneIsMobile | src/lib/device.ts:21 | any agent that mentions "iphone" in any letter case is mobile |
| Notion.Strings | src/lib/notion-types.ts:7 | an array gives its strings exactly when every element is a string, keeping length and order |
| Notion.ValidFrontmatter | src/lib/notion-types.ts:3-12 | the schema: string title, slug, date, summary and updatedAt, an array of strings as tags, a boolean published flag, and an optional string cover |
| Notion.Parse | src/lib/notion-types.ts:3-12 | a value parses exactly when the schema accepts it, and the record carries the accepted fields |
| Notion.Encode | src/lib/notion-types.ts:3-12 | every record encodes to an accepted value with only schema keys, and has a cover key exactly when it has a cover |
| Notion.ParseEncode | src/lib/notion-types.ts:3-12 | parsing an encoded record gives the record back |
| Notion.EncodeParse | src/lib/notion-types.ts:3-12 | encoding a parsed value gives the value back, less the keys the schema does not know |
| Notion.SchemaEdits | src/lib/notion-types.ts:5-11 | dropping the cover keeps a value accepted; a null cover, a missing slug, tags as a string and published as a string are each rejected |
| Notion.TestExamples | scripts/fetch-notion.test.ts:5-33 | the valid record of the schema's test parses with its two tags and its cover, and the invalid one is rejected |
| Notion.FirstText | scripts/fetch-notion.ts:97 | the first fragment's text, or "" when there is none |
| Notion.BuildFrontmatter | scripts/fetch-notion.ts:96-105 | title, slug and summary are the first fragments or ""; the date is the page's date when present and non-empty, else the given time; tags are the names in order; the cover is always present, "" when absent; updatedAt and published are copied |
| Notion.BuiltFrontmatterValidates | scripts/fetch-notion.ts:96-105 | the built frontmatter is accepted by the schema, survives the round trip, and always carries a cover key |
| Notion.SlugOf | scripts/fetch-notion.ts:128-132 | a page is skipped exactly when its first slug fragment is missing or empty; otherwise the slug is that fragment |
| Notion.Export | scripts/fetch-notion.ts:127-137 | at most one file per page; every file has a non-empty slug equal to its frontmatter's slug |
| Notion.ExportSnoc | scripts/fetch-notion.ts:127-137 | the export of a list is the export of its prefix, followed by the last page's file when that page has a slug |
| Notion.ExportSound | scripts/fetch-notion.ts:127-137 | every written file comes from a page with that slug and holds that page's frontmatter |
| Notion.ExportComplete | scripts/fetch-notion.ts:127-137 | every page with a slug has its file written |
| Notion.ExportSlugComplete | scripts/fetch-notion.ts:128-132 | the slug of every page that has one is the slug of some written file |
| Notion.ExportMembership | scripts/fetch-notion.ts:128-132 | a file is written for a slug exactly when some page has that slug |
| Notion.SkippedPostsWriteNothing | scripts/fetch-notion.ts:128-132 | a page without a slug adds no file, and pages without slugs write nothing at all |
| Notion.Files | scripts/fetch-notion.ts:112-119 | the files on disk after a sequence of writes, each write replacing any earlier file of the same slug |
| Notion.FilesKeys | scripts/fetch-notion.ts:127-137 | a file is left on disk for exactly the slugs that were written |
| Notion.FilesSnoc | scripts/fetch-notion.ts:116-117 | writing a file replaces the entry of its slug |
| Notion.LastPageWins | scripts/fetch-notion.ts:112-119 | the file of a slug ends up with the frontmatter of the last page with that slug |
| Notion.ExportPosts | scripts/fetch-notion.ts:127-137 | the script's loop writes exactly the export's files, in order |
| UiStore.SetForceLiteMode | src/stores/uiStore.ts:14 | the flag becomes the given value |
| UiStore.ToggleMode | src/stores/uiStore.ts:15 | the flag is negated |
| UiStore.ToggleLaws | src/stores/uiStore.ts:13-15 | toggling twice is the identity; toggling sets the negated flag; the last setting wins; the initial flag is false |

## Left out

- Rendering is not modelled: the canvas draw routine of `Game2D`, the Three.js meshes, materials and geometry, and the `Html` labels beyond their colours and visibility.
- Scheduling is not modelled: `requestAnimationFrame`, the 16 ms `setInterval`, cleanup, and event listener registration. Each frame or period is one call of a pure function.
- React and zustand plumbing is not modelled. In particular, `isNear` is component state (`useState` in `Hotspot` and `CatItem`) set by the previous frame's `setIsNear`; the model evaluates near on the cat position it is given.
- The game-loop updater mutates objects that it shares with the previous state. The model applies one frame purely. A double application of the updater, as in development strict mode, is not modelled.
- `preventDefault` on space and enter is not modelled. It has no effect on the state.
- The `routes[obj.id]` lookup is treated as a plain table: JavaScript prototype keys such as "constructor" are not modelled.
- `navigate` is an emitted route, not a router call.
- `Math.atan2`, `Math.sin`, `Date.now`, and the clock of the bob and float animations are parameters or left out. The hotspot's float and spin and the item's rotation are presentation only.
- `detectWebGLSupport` and the webgl2 probe are passed in as booleans, because they are browser calls.
- `String.prototype.toLowerCase` is modelled for ASCII A to Z only. No Unicode case mapping is modelled.
- The regular expression of the mobile test is modelled as a case-insensitive substring search for each alternative.
- zustand `persist` and local storage in the UI store are I/O and are not modelled.
- In the export script, these are I/O and are not modelled: the Notion client, `notion-to-md`, the `BlogPostSchema` parse of the query results, the `gray-matter` serialisation, `path.join`, `fs` writes, `dotenv`, and the environment check. The `new Date()` default date is the `now` parameter, and one `now` value stands for every page, although the script reads the clock afresh for each page (scripts/fetch-notion.ts:99).
- Zod's own behaviour is not modelled: error objects, and the stripping of unknown keys beyond dropping them on parsing.
- Numbers are `real`: IEEE-754 rounding, NaN and infinities are not modelled.
- `useGameEngine` sets the horizontal speed directly and has no acceleration, air control, speed or terminal-velocity clamp, dead-zone camera, particles, landing squash, weaker double jump, or side or underside collision response; none of these is modelled.
- GameEngineProps.TickRestingFixedPoint: the fixed point is stated under extra hypotheses. They are: no hit boxes, the player within twice the viewport height, and no earlier platform in the list catching the player first. Without them an earlier platform or a respawn could move the player.
- CatControls.MeshY: the sine is required to lie in [-1, 1], which `Math.sin` guarantees.
