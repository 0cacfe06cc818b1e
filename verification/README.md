# Pepe platformer — the procedural level generator and its helpers, in Dafny

This project models the deterministic core of a browser platformer in which the
player jumps across procedurally generated levels, collects memes and avoids
trolls and flying monsters on the way to a finish marker. Four components are
covered:

- **The level generator** (`src/LevelGenerator.ts`):
  - the seeded linear-congruential random source;
  - the three segment builders: the start platform, the difficulty-driven body segments and the calm final segment;
  - `combineSegments`, which merges the segments in order and places the finish;
  - `ensurePlayability`, a single repair pass that inserts bridge platforms and lowers platforms that are too high;
  - `generateLevel`, which ties these together.
- **The version helpers** (`src/VersionManager.ts`): `parseVersion`, `incrementVersion`, `isNewerVersion` and the shipped version string.
- **The keyboard state** (`src/InputManager.ts`): two key maps, keydown and keyup as abstract events, `update`, and the queries built on them.
- **The flying monster** (`src/entities/FlyingMonster.ts`): its constructor, the patrol part of `update`, and `checkCollision`.

Numbers are exact: JavaScript doubles become `real` for positions and `nat`
for the random state and version components. Everything is a pure function
over immutable datatypes. The generator threads the random state explicitly,
and every builder that draws returns the state it leaves.

| file | module | models |
|---|---|---|
| `geometry.dfy` | `Geometry` | platforms, entity positions, `Option` |
| `seqs.dfy` | `Seqs` | subsequence and concatenation helpers |
| `prng.dfy` | `Prng` | `random` and the state it threads |
| `segments.dfy` | `Segments` | `selectSegmentType`, `createPlatformSegment`, `calculateNextY`, `getLastPlatform`, and the three segment builders |
| `playability.dfy` | `Playability` | `ensurePlayability`, both as a recursive pass and as its in-place loop |
| `level.dfy` | `Level` | `combineSegments`, `generateLevel` |
| `version.dfy` | `Version` | the version helpers, plus `String.prototype.split` and number printing |
| `input.dfy` | `Input` | `InputManager` |
| `flying_monster.dfy` | `Patrol` | `FlyingMonster` |

## Behaviour worth knowing

- **No hazard spacing.** `combineSegments` runs only `ensurePlayability`. No meme, troll or flying monster is ever moved or dropped, and no minimum distance between hazards is enforced.
- **Reachability is best effort.** One pass does not make every step reachable. `Playability.SinglePassIsBestEffort` gives a two-platform input whose repaired output still has an unreachable step.
- **`random()` never returns 0.** For the integer states modelled here, the zero guard makes the value lie strictly between 0 and 1.
- **Any segment count is accepted.** With 2 or fewer, `generateLevel` builds just the start and final segments, so the width is `400 * max(numSegments, 2)`.
- **The bridge's height caps only descents.** Its y offset is `min((next.y - current.y) / 2, 40)`, so an ascent is halved, however large.

Two details of the code matter for the properties below:

- **The finish uses the pre-repair platform.** The finish is computed from the final segment's last platform as built, before the repair pass runs.
- **The bridge is never checked.** After inserting a bridge, the loop steps over it. The pair (bridge, next) is never examined. The pass still lowers `next` against the platform before the bridge.

## Model

| member | source | states |
|---|---|---|
| Prng.NextState | src/LevelGenerator.ts:287-292 | the new state always lies in [1, 233279]; it differs from the raw congruential step exactly when that step is 0, and is then 1 |
| Prng.Random | src/LevelGenerator.ts:287-294 | `random()` advances the state once and returns a value strictly between 0 and 1 that is the new state divided by 233280 |
| Prng.RandomPeriodic | src/LevelGenerator.ts:288 | a state and that state plus 233280 give the same draw |
| Segments.GetLastPlatform | src/LevelGenerator.ts:209-211 | for a segment with platforms, the result is one of its platforms |
| Segments.SelectSegmentType | src/LevelGenerator.ts:172-187 | one draw; below difficulty 0.3 only easy or jump; below 0.7 never drop; from 0.7 on, drop exactly when the draw is at least 0.8; easy only for draws below 0.7 |
| Segments.CreatePlatformSegment | src/LevelGenerator.ts:189-192 | one draw; the platform stands at the given (x, y) with height 20 and a width strictly between 80 and 200 |
| Segments.CalculateNextY | src/LevelGenerator.ts:194-207 | one draw; easy lands within 30 of y, jump rises 40 to 120, climb rises 80 to 140, drop falls 60 to 160 (bounds open) |
| Segments.RollFlyer | src/LevelGenerator.ts:120-130 | at most one flying monster; one only for a platform right of startX + 200, centred over it and 60 to 140 above it |
| Segments.PlacePlatform | src/LevelGenerator.ts:94-139 | one loop pass: a platform of the allowed shape at the current point; at most one meme at its centre 30 above, at most one troll 20 in and 35 above and only when wider than 120; a flying monster as RollFlyer allows; the next x 120 to 150 further right; the next y clamped into [100, 500] |
| Segments.PlatformRun | src/LevelGenerator.ts:94-140 | the loop yields exactly `count` platforms, the first at the start point; all are well shaped and each steps right from the one before; memes and trolls are subsequences of the allowed spots; flying monsters are placed in platform order over platforms past startX + 200 |
| Segments.RunStep | src/LevelGenerator.ts:103-130 | adding one loop pass in front of the rest of the loop keeps every placement relation |
| Segments.ShapedAt | src/LevelGenerator.ts:189-191 | every platform of a run has height 20 and a width in (80, 200) |
| Segments.SteppingAt | src/LevelGenerator.ts:133-139 | every later platform lies 120 to 150 right of the one before, with y in [100, 500] |
| Segments.HoversCount | src/LevelGenerator.ts:121-123 | there are no more flying monsters than platforms right of startX + 200 |
| Segments.HoversOver | src/LevelGenerator.ts:121-128 | every flying monster is centred over some platform right of startX + 200 |
| Segments.CreateStartSegment | src/LevelGenerator.ts:63-78 | exactly the start platform (startX, 550, 300, 20), no entities, 400 wide, difficulty 0 |
| Segments.CreateSegment | src/LevelGenerator.ts:80-151 | a body segment: 2 or 3 platforms, the first at startX + 50 and at the previous segment's last y, the rest stepping right; all placement rules; at most one flying monster; 400 wide |
| Segments.AtMostOneBeyond | src/LevelGenerator.ts:89-133 | of 2 or 3 platforms starting at startX + 50 and stepping less than 150, at most one lies past startX + 200 |
| Segments.CreateFinalSegment | src/LevelGenerator.ts:153-170 | platforms (startX + 50, y0, 150, 20) and (startX + 250, y0 - 40, 120, 20), where y0 is the previous segment's last y; one meme at (startX + 100, y0 - 30); no trolls or flying monsters |
| Segments.BodyEntityCounts | src/LevelGenerator.ts:94-130 | a body segment carries at most one meme and one troll per platform, at most 3 of each, and at most one flying monster |
| Playability.EnsurePlayability | src/LevelGenerator.ts:246-278 | the repaired list; its properties are carried by RepairKeepsOriginals, RepairKeepsFirst, RepairLength, RepairPairs and RepairBoundsAscent, and EnsurePlayabilityInPlace proves the in-place loop computes it |
| Playability.RepairFrom | src/LevelGenerator.ts:252-277 | one step per original platform; each original keeps its x, width and height; nothing is inserted after the last |
| Playability.RepairKeepsOriginals | src/LevelGenerator.ts:246-278 | the pass only inserts: the originals' (x, width, height) form a subsequence of the result, in order |
| Playability.RepairKeepsFirst | src/LevelGenerator.ts:252-276 | the first platform leaves the pass unchanged |
| Playability.RepairLength | src/LevelGenerator.ts:252-270 | nothing is removed, and at most one platform is inserted per original adjacent pair |
| Playability.RepairPairs | src/LevelGenerator.ts:258-276 | per original pair: slab pairs (height over 30) are left alone; otherwise a bridge 100 wide and 20 high, 84 right of the current platform's right edge, is inserted exactly when the gap exceeds 108; `next` is set to 90 above the current platform exactly when it rises more than 120 |
| Playability.RepairBoundsAscent | src/LevelGenerator.ts:273-276 | platforms only ever move down; after the pass, in each non-slab pair of originals the second, as adjusted, rises at most 120 above the first, as adjusted |
| Playability.SinglePassIsBestEffort | src/LevelGenerator.ts:264-276 | a concrete pair whose inserted bridge itself rises 150 and still leaves a gap too wide to jump: the single pass does not make every step reachable |
| Playability.EnsurePlayabilityInPlace | src/LevelGenerator.ts:246-278 | `ensurePlayability`'s loop (splice, extra index step, in-place lowering, 2n cap) computes the same list as the recursive pass; it runs exactly once per original adjacent pair, so the cap never cuts it short |
| Playability.HandlePair | src/LevelGenerator.ts:254-276 | one loop turn: the bridge, if any, is spliced in after `current` and the index steps over it; `next` is replaced by its lowered form |
| Level.CombineSegments | src/LevelGenerator.ts:213-244 | the platforms are exactly `ensurePlayability` applied to the segments' platforms concatenated in order; the entity lists are the segments' lists concatenated in order; the finish stands 50 in from the right edge of the last platform as built and 60 above it; the originals survive the repair with their footprints; with n merged platforms the level has between n and 2n - 1, so at most one platform is inserted per adjacent pair |
| Level.Difficulty | src/LevelGenerator.ts:48-49 | body segment i of n gets difficulty i/(n - 1), strictly between 0 and 1 |
| Level.BuildLoop | src/LevelGenerator.ts:47-53 | the loop builds segments up to index n - 2; segment k is a body segment at 400k with difficulty k/(n - 1), anchored to the last y of segment k - 1 |
| Level.Push | src/LevelGenerator.ts:50-52 | pushing a body segment anchored to the last segment keeps the loop invariant |
| Level.BuildSegments | src/LevelGenerator.ts:39-57 | max(n, 2) segments: the start segment, body segments of rising difficulty, each anchored to the one before, then the final segment at 400(count - 1) anchored to the last body segment |
| Level.PushFinal | src/LevelGenerator.ts:55-57 | the final segment completes a well-built layout |
| Level.GenerateLevel | src/LevelGenerator.ts:34-61 | the level is 400 wide per segment; its platforms are exactly the repaired merge of the segments' platforms; its entity lists are the body segments' lists in order, plus the final meme; the finish is 80 left of the right edge and 100 above the end of the segment before the final one; the player starts on the untouched start platform; there is at most one flying monster per body segment, each over a platform of the finished level |
| Level.DefaultLevelWidth | src/LevelGenerator.ts:34 | with the default segment count of 6, the level is 2400 wide |
| Level.CombinedLevel | src/LevelGenerator.ts:220-244 | combining well-built segments yields a level with all the properties GenerateLevel states |
| Level.RepairedLevel | src/LevelGenerator.ts:233-278 | on a generated level: with n merged platforms it has between n and 2n - 1 platforms; the repair only moves platforms down; in each pair of adjacent merged platforms that are not slabs, the second, as adjusted, rises at most 120 above the first, as adjusted |
| Level.BodyEntities | src/LevelGenerator.ts:220-225 | the start segment contributes no entities and the final segment exactly one meme, so the level's lists are the body segments' lists |
| Level.LevelFlyers | src/LevelGenerator.ts:120-130 | a level has at most one flying monster per body segment, and each is centred over a platform that survives the repair |
| Level.FlyerOnLevelPlatform | src/LevelGenerator.ts:121-128 | a body segment's flying monster is centred over a platform whose footprint survives into the repaired level |
| Version.NatToString | src/VersionManager.ts:40-45 | printing a number gives a nonempty digit string with no leading zero that reads back as that number |
| Version.CanonicalDigits | src/VersionManager.ts:26 | the other direction: a canonical digit string is exactly what printing its value gives |
| Version.Split | src/VersionManager.ts:26 | `split` gives at least one piece, and no piece contains the separator |
| Version.JoinSplit | src/VersionManager.ts:26 | joining the pieces of a split gives back the string |
| Version.SplitJoin | src/VersionManager.ts:26 | splitting a join of separator-free pieces gives back the pieces |
| Version.ParseVersion | src/VersionManager.ts:24-33 | one leading `v` dropped, split on `.`, the first three pieces read as numbers (0 when absent or not a digit string); ParseFormat, LeadingVIgnored, OnlyOneVStripped, ExtraComponentsIgnored and MissingComponentsZero carry its properties |
| Version.ParseFormat | src/VersionManager.ts:24-33 | parsing a printed `M.m.p` gives back (M, m, p) |
| Version.LeadingVIgnored | src/VersionManager.ts:25 | a leading `v` is ignored |
| Version.OnlyOneVStripped | src/VersionManager.ts:25 | only one `v` is stripped: `vv…` parses with major 0 |
| Version.ExtraComponentsIgnored | src/VersionManager.ts:26-32 | components beyond the third are ignored |
| Version.MissingComponentsZero | src/VersionManager.ts:26-32 | missing components read as 0 |
| Version.IncrementVersion | src/VersionManager.ts:35-47 | parsing the incremented version gives the bumped triple of the parsed input (major gives M+1.0.0, minor gives M.m+1.0, patch gives M.m.p+1); the result has no `v` prefix |
| Version.IncrementShape | src/VersionManager.ts:38-46 | the printed form of each kind of bump |
| Version.DefaultBumpIsPatch | src/VersionManager.ts:35 | without a kind, the patch component is bumped; the shipped 1.3.47 becomes 1.3.48 |
| Version.IncrementIsNewer | src/VersionManager.ts:35-62 | an increment of any kind is newer than its input |
| Version.IsNewerVersion | src/VersionManager.ts:49-62 | the first differing component of the two parses decides; NewerIsLex equates it with lexicographic order, and NewerIrreflexive, NewerAsymmetric, NewerTransitive and NewerTotal make it a strict total order on parses |
| Version.NewerIsLex | src/VersionManager.ts:49-62 | the comparison chain equals the lexicographic order on (major, minor, patch) |
| Version.NewerIrreflexive | src/VersionManager.ts:49-62 | no version is newer than itself |
| Version.NewerAsymmetric | src/VersionManager.ts:49-62 | if a is newer than b, then b is not newer than a |
| Version.NewerTransitive | src/VersionManager.ts:49-62 | newer-than is transitive |
| Version.NewerTotal | src/VersionManager.ts:49-62 | two versions that parse differently are ordered one way or the other; equal parses are ordered neither way |
| Version.GetVersion | src/VersionManager.ts:3-7 | the shipped version parses as 1.3.47 |
| Version.GetFormattedVersion | src/VersionManager.ts:9-11 | the formatted version is `v` followed by the shipped version |
| Version.FormattedParsesAsCurrent | src/VersionManager.ts:3-11 | the formatted version parses like the shipped one, as 1.3.47 |
| Input.NewInput | src/InputManager.ts:2-3 | a fresh manager reports no key code pressed and none just pressed (names inherited from `Object.prototype` are left out) |
| Input.IsKeyPressed | src/InputManager.ts:48-50 | a code reads as pressed iff its map entry is true, a missing entry counting as false; EventsDecideKey ties this to the last keydown or keyup event of the frame |
| Input.IsKeyJustPressed | src/InputManager.ts:52-54 | pressed now and not at the last `update`; JustPressedAfterFrame states when that holds after a frame of events |
| Input.HandleEvent | src/InputManager.ts:11-17 | keydown sets its code to pressed, keyup to not pressed; no other code and no previous key changes |
| Input.EventsDecideKey | src/InputManager.ts:11-50 | after a frame's events, a key is pressed iff its last event was a keydown, or it had no event and was pressed before; unseen keys read as not pressed |
| Input.Update | src/InputManager.ts:70-72 | after `update` the pressed keys are unchanged and no key, jump or interact is just pressed |
| Input.JustPressedAfterFrame | src/InputManager.ts:52-72 | a key is just pressed iff it was up when the frame began and its last event in the frame was a keydown |
| Input.IsJumpPressed | src/InputManager.ts:57-68 | a rising edge on Space, ArrowUp or KeyW; JumpIsJustPressed equates it with IsKeyJustPressed on one of those keys, and JumpOncePerPress shows it is reported once per press |
| Input.IsInteractPressed | src/InputManager.ts:91-97 | a rising edge on KeyE; Update shows it is cleared at the end of every frame |
| Input.JumpIsJustPressed | src/InputManager.ts:57-68 | a jump is exactly a rising edge on Space, ArrowUp or KeyW |
| Input.JumpOncePerPress | src/InputManager.ts:57-72 | without new events, a jump is not reported again in the next frame |
| Input.HorizontalInput | src/InputManager.ts:75-80 | the value is -1, 0 or 1: -1 iff only left is held (ArrowLeft or KeyA), 1 iff only right is held (ArrowRight or KeyD), 0 when both or neither are held |
| Input.VerticalInput | src/InputManager.ts:82-87 | the value is -1, 0 or 1: -1 iff only up is held (ArrowUp or KeyW), 1 iff only down is held (ArrowDown or KeyS), 0 when both or neither are held |
| Input.GetPressedKeys | src/InputManager.ts:100-102 | exactly the codes that read as pressed |
| Patrol.Spawn | src/entities/FlyingMonster.ts:15-20 | the patrol centre is the spawn x and the hover height the spawn y; the monster starts inside its patrol, heading right |
| Patrol.Update | src/entities/FlyingMonster.ts:22-39 | the patrol centre and hover height never change; the direction stays 1 or -1; the patrol range is kept; an overshoot right clamps to startX + 200 and turns left, and the left side mirrors it; otherwise the monster moves 0.8 in its direction; y stays within 40 of the hover height |
| Patrol.Frames | src/entities/FlyingMonster.ts:22-39 | over any number of frames, the patrol centre and hover height never change |
| Patrol.FramesKeepPatrol | src/entities/FlyingMonster.ts:26-35 | a monster inside its patrol range with direction ±1 stays so after any number of frames |
| Patrol.WalkRight | src/entities/FlyingMonster.ts:26 | with room to spare, the monster advances exactly 0.8 per frame |
| Patrol.FirstTurn | src/entities/FlyingMonster.ts:26-31 | from its spawn, the monster reaches startX + 200 after 250 frames and turns left on the 251st |
| Patrol.CheckCollision | src/entities/FlyingMonster.ts:81-86 | the four strict comparisons of the two boxes; CollisionIsSharedInterior equates them with a point strictly inside both boxes, and TouchingIsNoCollision shows that boxes sharing only an edge do not collide |
| Patrol.CollisionIsSharedInterior | src/entities/FlyingMonster.ts:81-86 | for a player of positive size, a collision is exactly a point strictly inside both boxes |
| Patrol.TouchingIsNoCollision | src/entities/FlyingMonster.ts:81-86 | boxes that only touch along an edge do not collide |

## Left out

- **Floating point.** JavaScript's double rounding is left out: every number is exact. The random states are exact for integer seeds below 2^53 / 9301 (about 9.68 · 10^11), and for every state after the first draw. A larger seed makes `seed * 9301 + 49297` exceed 2^53, so JavaScript rounds it before the `%` and the first draw can differ from `Prng.Lcg`.
- **Steps of 0.8.** The flying monster's repeated 0.8 steps are modelled exactly. In doubles they drift slightly, so the exact frame count in `Patrol.FirstTurn` holds for the exact model only.
- **The initial seed.** The ambient `Math.random() * 1000000` seed is a foreign call, so the state enters as a parameter. Negative and fractional states are left out: the state is a `nat`. A seed of 0 keeps the current state, as `if (seed)` does.
- **Hazard-spacing repair.** The code has none.
- **Full reachability after repair.** The code does not give it; see `Playability.SinglePassIsBestEffort`.
- Level.GenerateLevel: where the finish lands after repair. It states the finish from the final segment's platforms as built. It does not prove that the repair pass leaves the finish platform in place.
- Segments.CreateSegment: which draw gives which count. It states 2 or 3 platforms, not which draw gives which count.
- **Seed periodicity of whole levels.** The property is not stated. It is stated only for a single draw (`Prng.RandomPeriodic`).
- **Unused parameters.** `ensurePlayability` takes memes and trolls and never reads them. `createPlatformSegment` ignores the segment type and the is-last flag. `calculateNextY` ignores the difficulty. `calculateNextY`'s default branch cannot be reached with the four segment types.
- **Version components.** Only decimal digit strings are read as numbers; every other component reads as 0. That covers what `Number()` turns into NaN. It misses what it accepts besides digits: whitespace, signs, hex, exponents. A signed component such as `-1` would survive `|| 0` as a negative number in the code.
- Version.Split: only single-character separators are modelled, which is all `parseVersion` uses.
- **`getBuildInfo`.** Left out because it reads the clock.
- **`scripts/version-bump.js`.** Left out because it is file I/O and process exit. Its arithmetic duplicates `incrementVersion`.
- **InputManager's listener wiring.** This covers the window and canvas listeners, `preventDefault`, focus handling and the two `console.log` calls. Key events enter as abstract keydown and keyup events.
- Input.NewInput: codes that name a property of `Object.prototype` are left out. The key maps are plain `{}` objects, so in the code `isKeyPressed("toString")`, `"constructor"` or `"valueOf"` returns an inherited function, which is truthy, on a fresh manager. The model reads every code without an event as not pressed. No `KeyboardEvent.code` has such a name.
- Input.IsKeyPressed: the same prototype lookup is left out, so its contract covers key codes only. A keydown of `__proto__` is ignored by the code, and `isKeyPressed("__proto__")` is always truthy there. `Input.HandleEvent` and `Input.EventsDecideKey` treat that string like any other code, which no keyboard event produces.
- **Key order.** `getPressedKeys` is modelled as a set, so the JavaScript property order of the array is left out.
- **The flying monster's sine.** `Math.sin` is a foreign call: each frame receives its value as a parameter in [-1, 1]. The animation clock is advanced but not related to that value. `render` is left out.
- **Other parts of the game.** This covers the `Game` orchestrator, `Player` and `Troll` physics, the particle system, audio, mobile and Telegram glue, and rendering of every entity. They are browser I/O, floating-point physics or drawing.
