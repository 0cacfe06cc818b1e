/**
 * The segment builders of the level generator: the safe start platform, the
 * difficulty-driven body segments with their memes, trolls and flying
 * monsters, and the calm final approach.  Every builder that draws threads
 * the random state explicitly and returns the state it leaves.
 */
module Segments {
  import opened Geometry
  import opened Seqs
  import opened Prng

  const SEGMENT_WIDTH: real := 400.0
  const MIN_PLATFORM_WIDTH: real := 80.0
  const MAX_PLATFORM_WIDTH: real := 200.0
  const GROUND_Y: real := 550.0
  const PLATFORM_HEIGHT: real := 20.0
  /** The vertical band later platforms of a body segment are clamped into. */
  const MIN_Y: real := 100.0
  const MAX_Y: real := 500.0

  datatype SegmentType = Easy | Jump | Climb | Drop

  datatype Segment = Segment(
    platforms: seq<Platform>,
    memes: seq<Pos>,
    trolls: seq<Pos>,
    flyers: seq<Pos>,
    startX: real,
    endX: real,
    difficulty: real)

  /** Where a meme floats over a platform: centred, 30 above. */
  function MemeSpot(p: Platform): Pos { Pos(p.x + p.width / 2.0, p.y - 30.0) }

  /** Where a troll spawns on a platform: 20 in from the left edge, 35 above. */
  function TrollSpot(p: Platform): Pos { Pos(p.x + 20.0, p.y - 35.0) }

  /** Only platforms wider than this carry trolls. */
  predicate WideEnoughForTroll(p: Platform) { p.width > 120.0 }

  /** A flying monster centred over `p`, between 60 and 140 above it. */
  predicate FlyerOver(f: Pos, p: Platform)
  {
    f.x == p.x + p.width / 2.0 && p.y - 140.0 < f.y < p.y - 60.0
  }

  /** The meme spots of all platforms, in order. */
  function MemeSites(ps: seq<Platform>): seq<Pos>
  {
    if |ps| == 0 then [] else [MemeSpot(ps[0])] + MemeSites(ps[1..])
  }

  /** The troll spots of the platforms wide enough for a troll, in order. */
  function TrollSites(ps: seq<Platform>): seq<Pos>
  {
    if |ps| == 0 then []
    else (if WideEnoughForTroll(ps[0]) then [TrollSpot(ps[0])] else []) + TrollSites(ps[1..])
  }

  /** How many platforms start strictly right of `bound`. */
  function CountBeyond(ps: seq<Platform>, bound: real): nat
  {
    if |ps| == 0 then 0 else (if ps[0].x > bound then 1 else 0) + CountBeyond(ps[1..], bound)
  }

  function Clamp(v: real, lo: real, hi: real): real
  {
    Max(lo, Min(hi, v))
  }

  /** getLastPlatform: the platform the next segment is anchored to. */
  function GetLastPlatform(s: Segment): (p: Platform)
    requires |s.platforms| > 0
    ensures p in s.platforms
  {
    s.platforms[|s.platforms| - 1]
  }

  // ---------------------------------------------------------------------
  // Random choices

  /**
   * selectSegmentType: one draw, mapped to a type by difficulty band.
   * Below 0.3 only easy and jump occur; below 0.7 never drop.
   */
  function SelectSegmentType(difficulty: real, rng: nat): (r: (SegmentType, nat))
    ensures r.1 == NextState(rng)
    ensures difficulty < 0.3 ==> r.0 == Easy || r.0 == Jump
    ensures difficulty < 0.7 ==> r.0 != Drop
    ensures 0.7 <= difficulty ==> (r.0 == Drop <==> 0.8 <= Random(rng).value)
    ensures r.0 == Easy ==> Random(rng).value < 0.7
  {
    var d := Random(rng);
    var rand := d.value;
    var kind :=
      if difficulty < 0.3 then
        (if rand < 0.7 then Easy else Jump)
      else if difficulty < 0.7 then
        (if rand < 0.4 then Easy else if rand < 0.7 then Jump else Climb)
      else
        (if rand < 0.2 then Easy else if rand < 0.5 then Jump else if rand < 0.8 then Climb else Drop);
    (kind, d.next)
  }

  /** createPlatformSegment: a platform at (x, y) of height 20 and a random width in the allowed range. */
  function CreatePlatformSegment(x: real, y: real, rng: nat): (r: (Platform, nat))
    ensures r.1 == NextState(rng)
    ensures r.0.x == x && r.0.y == y && r.0.height == PLATFORM_HEIGHT
    ensures MIN_PLATFORM_WIDTH < r.0.width < MAX_PLATFORM_WIDTH
  {
    var d := Random(rng);
    (Platform(x, y, MIN_PLATFORM_WIDTH + d.value * (MAX_PLATFORM_WIDTH - MIN_PLATFORM_WIDTH), PLATFORM_HEIGHT), d.next)
  }

  /** calculateNextY: one draw, giving a y offset whose range depends on the type. */
  function CalculateNextY(y: real, kind: SegmentType, rng: nat): (r: (real, nat))
    ensures r.1 == NextState(rng)
    ensures kind == Easy ==> y - 30.0 < r.0 < y + 30.0
    ensures kind == Jump ==> y - 120.0 < r.0 < y - 40.0
    ensures kind == Climb ==> y - 140.0 < r.0 < y - 80.0
    ensures kind == Drop ==> y + 60.0 < r.0 < y + 160.0
  {
    var d := Random(rng);
    var ny :=
      match kind
      case Easy => y + (-30.0 + d.value * 60.0)
      case Jump => y - (40.0 + d.value * 80.0)
      case Climb => y - (80.0 + d.value * 60.0)
      case Drop => y + (60.0 + d.value * 100.0);
    (ny, d.next)
  }

  // ---------------------------------------------------------------------
  // Body segments

  /** What one pass of createSegment's loop produces. */
  datatype Placement = Placement(
    platform: Platform,
    meme: seq<Pos>,
    troll: seq<Pos>,
    flyer: seq<Pos>,
    nextX: real,
    nextY: real,
    rng: nat)

  /** The flying-monster roll of one platform: only past startX + 200, with a second draw for its height. */
  function RollFlyer(startX: real, difficulty: real, p: Platform, rng: nat): (r: (seq<Pos>, nat))
    ensures |r.0| <= 1
    ensures |r.0| == 1 ==> p.x > startX + 200.0 && FlyerOver(r.0[0], p)
  {
    if p.x > startX + 200.0 then
      var chance := Random(rng);
      if chance.value < Max(0.1, difficulty * 0.25) then
        var h := Random(chance.next);
        ([Pos(p.x + p.width / 2.0, p.y - 60.0 - h.value * 80.0)], h.next)
      else ([], chance.next)
    else ([], rng)
  }

  /** One iteration of createSegment's loop, with the draws in the order the loop makes them. */
  function PlacePlatform(startX: real, difficulty: real, x: real, y: real, rng: nat): (r: Placement)
    ensures r.platform.x == x && r.platform.y == y && r.platform.height == PLATFORM_HEIGHT
    ensures MIN_PLATFORM_WIDTH < r.platform.width < MAX_PLATFORM_WIDTH
    ensures r.meme == [] || r.meme == [MemeSpot(r.platform)]
    ensures r.troll == [] || (r.troll == [TrollSpot(r.platform)] && WideEnoughForTroll(r.platform))
    ensures |r.flyer| <= 1
    ensures |r.flyer| == 1 ==> x > startX + 200.0 && FlyerOver(r.flyer[0], r.platform)
    ensures x + JUMP_DISTANCE < r.nextX < x + JUMP_DISTANCE + 30.0
    ensures MIN_Y <= r.nextY <= MAX_Y
  {
    var (kind, s1) := SelectSegmentType(difficulty, rng);
    var (platform, s2) := CreatePlatformSegment(x, y, s1);
    var memeRoll := Random(s2);
    var meme := if memeRoll.value < 0.6 + difficulty * 0.3 then [MemeSpot(platform)] else [];
    var trollRoll := Random(memeRoll.next);
    var troll := if trollRoll.value < difficulty * 0.4 && WideEnoughForTroll(platform) then [TrollSpot(platform)] else [];
    var (flyer, s5) := RollFlyer(startX, difficulty, platform, trollRoll.next);
    var step := Random(s5);
    var (newY, s7) := CalculateNextY(y, kind, step.next);
    Placement(platform, meme, troll, flyer, x + (JUMP_DISTANCE + step.value * 30.0), Clamp(newY, MIN_Y, MAX_Y), s7)
  }

  /** A platform as createPlatformSegment makes it: height 20, width strictly between 80 and 200. */
  predicate Shaped(p: Platform)
  {
    p.height == PLATFORM_HEIGHT && MIN_PLATFORM_WIDTH < p.width < MAX_PLATFORM_WIDTH
  }

  predicate AllShaped(ps: seq<Platform>)
  {
    |ps| == 0 || (Shaped(ps[0]) && AllShaped(ps[1..]))
  }

  /** `q` is where the loop puts the platform after `p`: 120 to 150 further right, y inside [100, 500]. */
  predicate StepsTo(p: Platform, q: Platform)
  {
    p.x + JUMP_DISTANCE < q.x < p.x + JUMP_DISTANCE + 30.0 && MIN_Y <= q.y <= MAX_Y
  }

  /** Every platform after the first is one loop step on from the platform before it. */
  predicate Stepping(ps: seq<Platform>)
  {
    |ps| <= 1 || (StepsTo(ps[0], ps[1]) && Stepping(ps[1..]))
  }

  /**
   * `fs` are flying monsters placed along `ps` as the loop places them: at most
   * one per platform, in platform order, each centred over a platform starting
   * right of `bound`.
   */
  predicate Hovers(fs: seq<Pos>, ps: seq<Platform>, bound: real)
    decreases |ps|
  {
    if |ps| == 0 then fs == []
    else
      || Hovers(fs, ps[1..], bound)
      || (|fs| > 0 && ps[0].x > bound && FlyerOver(fs[0], ps[0]) && Hovers(fs[1..], ps[1..], bound))
  }

  /** The platforms and entities of the remaining `count` passes of createSegment's loop. */
  datatype Run = Run(platforms: seq<Platform>, memes: seq<Pos>, trolls: seq<Pos>, flyers: seq<Pos>, rng: nat)

  function PlatformRun(startX: real, difficulty: real, count: nat, x: real, y: real, rng: nat): (r: Run)
    ensures |r.platforms| == count
    ensures count > 0 ==> r.platforms[0].x == x && r.platforms[0].y == y
    ensures AllShaped(r.platforms) && Stepping(r.platforms)
    ensures Sub(r.memes, MemeSites(r.platforms))
    ensures Sub(r.trolls, TrollSites(r.platforms))
    ensures Hovers(r.flyers, r.platforms, startX + 200.0)
    decreases count
  {
    if count == 0 then Run([], [], [], [], rng)
    else
      var p := PlacePlatform(startX, difficulty, x, y, rng);
      var rest := PlatformRun(startX, difficulty, count - 1, p.nextX, p.nextY, p.rng);
      var r := Run([p.platform] + rest.platforms, p.meme + rest.memes, p.troll + rest.trolls,
                   p.flyer + rest.flyers, rest.rng);
      RunStep(p, rest, r, startX);
      r
  }

  /** The induction step of PlatformRun: prepending one placement keeps every relation of the run. */
  lemma RunStep(p: Placement, rest: Run, r: Run, startX: real)
    requires r == Run([p.platform] + rest.platforms, p.meme + rest.memes, p.troll + rest.trolls,
                      p.flyer + rest.flyers, rest.rng)
    requires Shaped(p.platform)
    requires |rest.platforms| > 0 ==> StepsTo(p.platform, rest.platforms[0])
    requires p.meme == [] || p.meme == [MemeSpot(p.platform)]
    requires p.troll == [] || (p.troll == [TrollSpot(p.platform)] && WideEnoughForTroll(p.platform))
    requires p.flyer == [] || (|p.flyer| == 1 && p.platform.x > startX + 200.0 && FlyerOver(p.flyer[0], p.platform))
    requires AllShaped(rest.platforms) && Stepping(rest.platforms)
    requires Sub(rest.memes, MemeSites(rest.platforms))
    requires Sub(rest.trolls, TrollSites(rest.platforms))
    requires Hovers(rest.flyers, rest.platforms, startX + 200.0)
    ensures AllShaped(r.platforms) && Stepping(r.platforms)
    ensures Sub(r.memes, MemeSites(r.platforms))
    ensures Sub(r.trolls, TrollSites(r.platforms))
    ensures Hovers(r.flyers, r.platforms, startX + 200.0)
  {
    var ps := r.platforms;
    assert ps[0] == p.platform && ps[1..] == rest.platforms;
    assert MemeSites(ps) == [MemeSpot(p.platform)] + MemeSites(rest.platforms);
    if p.meme == [] {
      assert r.memes == rest.memes;
      SubSkip(rest.memes, MemeSpot(p.platform), MemeSites(rest.platforms));
    } else {
      assert r.memes == [MemeSpot(p.platform)] + rest.memes;
      SubKeep(MemeSpot(p.platform), rest.memes, MemeSites(rest.platforms));
    }
    if WideEnoughForTroll(p.platform) {
      assert TrollSites(ps) == [TrollSpot(p.platform)] + TrollSites(rest.platforms);
      if p.troll == [] {
        assert r.trolls == rest.trolls;
        SubSkip(rest.trolls, TrollSpot(p.platform), TrollSites(rest.platforms));
      } else {
        assert r.trolls == [TrollSpot(p.platform)] + rest.trolls;
        SubKeep(TrollSpot(p.platform), rest.trolls, TrollSites(rest.platforms));
      }
    } else {
      assert TrollSites(ps) == TrollSites(rest.platforms);
      assert p.troll == [] && r.trolls == rest.trolls;
    }
    if p.flyer == [] {
      assert r.flyers == rest.flyers;
    } else {
      assert r.flyers[0] == p.flyer[0] && r.flyers[1..] == rest.flyers;
    }
  }

  /** AllShaped, read per index: every platform has height 20 and a width in (80, 200). */
  lemma {:induction false} ShapedAt(ps: seq<Platform>, i: int)
    requires AllShaped(ps) && 0 <= i < |ps|
    ensures ps[i].height == PLATFORM_HEIGHT && MIN_PLATFORM_WIDTH < ps[i].width < MAX_PLATFORM_WIDTH
    decreases i
  {
    if i > 0 {
      ShapedAt(ps[1..], i - 1);
      assert ps[1..][i - 1] == ps[i];
    }
  }

  /** Stepping, read per index: platform i lies 120 to 150 right of platform i - 1, with y in [100, 500]. */
  lemma {:induction false} SteppingAt(ps: seq<Platform>, i: int)
    requires Stepping(ps) && 0 < i < |ps|
    ensures ps[i - 1].x + JUMP_DISTANCE < ps[i].x < ps[i - 1].x + JUMP_DISTANCE + 30.0
    ensures MIN_Y <= ps[i].y <= MAX_Y
    decreases i
  {
    if i > 1 {
      SteppingAt(ps[1..], i - 1);
      assert ps[1..][i - 1] == ps[i] && ps[1..][i - 2] == ps[i - 1];
    }
  }

  /** Hovering monsters are no more than the platforms right of the bound. */
  lemma {:induction false} HoversCount(fs: seq<Pos>, ps: seq<Platform>, bound: real)
    requires Hovers(fs, ps, bound)
    ensures |fs| <= CountBeyond(ps, bound)
    decreases |ps|
  {
    if |ps| > 0 {
      if Hovers(fs, ps[1..], bound) {
        HoversCount(fs, ps[1..], bound);
      } else {
        HoversCount(fs[1..], ps[1..], bound);
      }
    }
  }

  /** Each hovering monster is centred over some platform right of the bound. */
  lemma {:induction false} HoversOver(fs: seq<Pos>, ps: seq<Platform>, bound: real, f: Pos)
    requires Hovers(fs, ps, bound) && f in fs
    ensures exists p :: p in ps && p.x > bound && FlyerOver(f, p)
    decreases |ps|
  {
    if Hovers(fs, ps[1..], bound) {
      HoversOver(fs, ps[1..], bound, f);
      var p :| p in ps[1..] && p.x > bound && FlyerOver(f, p);
      assert p in ps;
    } else if f == fs[0] {
      assert ps[0] in ps;
    } else {
      assert f in fs[1..];
      HoversOver(fs[1..], ps[1..], bound, f);
      var p :| p in ps[1..] && p.x > bound && FlyerOver(f, p);
      assert p in ps;
    }
  }

  // ---------------------------------------------------------------------
  // Whole segments

  /** The shape every body segment has, whatever the draws: 2 or 3 platforms stepping right. */
  predicate IsBodySegment(s: Segment, startX: real, difficulty: real)
  {
    && s.startX == startX && s.endX == startX + SEGMENT_WIDTH && s.difficulty == difficulty
    && 2 <= |s.platforms| <= 3
    && s.platforms[0].x == startX + 50.0
    && AllShaped(s.platforms) && Stepping(s.platforms)
    && Sub(s.memes, MemeSites(s.platforms))
    && Sub(s.trolls, TrollSites(s.platforms))
    && Hovers(s.flyers, s.platforms, startX + 200.0)
    && |s.flyers| <= 1
  }

  /** createStartSegment: the safe landing zone, one wide platform at ground level and nothing on it. */
  function CreateStartSegment(startX: real): (s: Segment)
    ensures s.platforms == [Platform(startX, GROUND_Y, 300.0, PLATFORM_HEIGHT)]
    ensures s.memes == [] && s.trolls == [] && s.flyers == []
    ensures s.startX == startX && s.endX == startX + SEGMENT_WIDTH && s.difficulty == 0.0
  {
    Segment([Platform(startX, GROUND_Y, 300.0, PLATFORM_HEIGHT)], [], [], [], startX, startX + SEGMENT_WIDTH, 0.0)
  }

  /** createSegment: a body segment anchored at the y of the previous segment's last platform. */
  function CreateSegment(startX: real, difficulty: real, previous: Segment, rng: nat): (r: (Segment, nat))
    requires |previous.platforms| > 0
    ensures IsBodySegment(r.0, startX, difficulty)
    ensures r.0.platforms[0].y == GetLastPlatform(previous).y
  {
    var lastPlatform := GetLastPlatform(previous);
    var count := Random(rng);
    var numPlatforms: nat := 2 + (count.value * 2.0).Floor;
    var run := PlatformRun(startX, difficulty, numPlatforms, startX + 50.0, lastPlatform.y, count.next);
    AtMostOneBeyond(run.platforms, startX);
    HoversCount(run.flyers, run.platforms, startX + 200.0);
    (Segment(run.platforms, run.memes, run.trolls, run.flyers, startX, startX + SEGMENT_WIDTH, difficulty), run.rng)
  }

  /**
   * Only a third platform can lie past startX + 200: the first sits at startX + 50
   * and each step right is shorter than 150.
   */
  lemma AtMostOneBeyond(ps: seq<Platform>, startX: real)
    requires 2 <= |ps| <= 3
    requires ps[0].x == startX + 50.0
    requires Stepping(ps)
    ensures CountBeyond(ps, startX + 200.0) <= 1
  {
    assert StepsTo(ps[0], ps[1]);
    assert ps[1..][0] == ps[1];
    assert ps[1].x < startX + 200.0;
    assert CountBeyond(ps, startX + 200.0) == CountBeyond(ps[1..], startX + 200.0);
    assert CountBeyond(ps[1..], startX + 200.0) == CountBeyond(ps[2..], startX + 200.0);
    if |ps| == 3 {
      assert ps[2..][1..] == [];
      assert CountBeyond(ps[2..], startX + 200.0) <= 1 + CountBeyond(ps[2..][1..], startX + 200.0);
    } else {
      assert ps[2..] == [];
    }
  }

  /** The final segment as built: a platform level with the last one, a higher one for the finish, one meme. */
  predicate IsFinalSegment(s: Segment, startX: real, anchorY: real)
  {
    && s.platforms == [Platform(startX + 50.0, anchorY, 150.0, PLATFORM_HEIGHT),
                       Platform(startX + 250.0, anchorY - 40.0, 120.0, PLATFORM_HEIGHT)]
    && s.memes == [Pos(startX + 100.0, anchorY - 30.0)]
    && s.trolls == [] && s.flyers == []
    && s.startX == startX && s.endX == startX + SEGMENT_WIDTH && s.difficulty == 0.0
  }

  /** createFinalSegment: two platforms stepping up 40 from the previous segment's last y, one meme, no hazards. */
  function CreateFinalSegment(startX: real, previous: Segment): (s: Segment)
    requires |previous.platforms| > 0
    ensures IsFinalSegment(s, startX, GetLastPlatform(previous).y)
  {
    var lastPlatform := GetLastPlatform(previous);
    Segment([Platform(startX + 50.0, lastPlatform.y, 150.0, PLATFORM_HEIGHT),
             Platform(startX + 250.0, lastPlatform.y - 40.0, 120.0, PLATFORM_HEIGHT)],
            [Pos(startX + 100.0, lastPlatform.y - 30.0)], [], [], startX, startX + SEGMENT_WIDTH, 0.0)
  }

  lemma {:induction false} SitesLength(ps: seq<Platform>)
    ensures |MemeSites(ps)| == |ps|
    ensures |TrollSites(ps)| <= |ps|
  {
    if |ps| > 0 {
      SitesLength(ps[1..]);
    }
  }

  /** A body segment carries at most one meme and one troll per platform, and at most one flying monster. */
  lemma BodyEntityCounts(s: Segment, startX: real, difficulty: real)
    requires IsBodySegment(s, startX, difficulty)
    ensures |s.memes| <= |s.platforms| <= 3
    ensures |s.trolls| <= |s.platforms|
    ensures |s.flyers| <= 1
  {
    SitesLength(s.platforms);
    SubBounds(s.memes, MemeSites(s.platforms));
    SubBounds(s.trolls, TrollSites(s.platforms));
  }
}
