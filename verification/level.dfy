/**
 * generateLevel and combineSegments: the start segment, numSegments - 2 body
 * segments of rising difficulty and the final segment, laid side by side 400
 * apart, merged in order, with the finish on the last platform and the single
 * playability pass run over the merged platforms.
 */
module Level {
  import opened Geometry
  import opened Seqs
  import opened Segments
  import Playability

  datatype GeneratedLevel = GeneratedLevel(
    platforms: seq<Platform>,
    memes: seq<Pos>,
    trolls: seq<Pos>,
    flyers: seq<Pos>,
    finish: Pos,
    width: real)

  function PlatformsOf(s: Segment): seq<Platform> { s.platforms }
  function MemesOf(s: Segment): seq<Pos> { s.memes }
  function TrollsOf(s: Segment): seq<Pos> { s.trolls }
  function FlyersOf(s: Segment): seq<Pos> { s.flyers }

  /** Where the finish stands on a platform: 50 in from its right edge, 60 above it. */
  function FinishSpot(p: Platform): Pos { Pos(p.x + p.width - 50.0, p.y - 60.0) }

  /**
   * combineSegments: the entity lists are merged in segment order; the finish is
   * placed from the last platform as built, before the playability pass runs.
   */
  function CombineSegments(segments: seq<Segment>, totalWidth: real): (level: GeneratedLevel)
    requires |segments| > 0 && |segments[|segments| - 1].platforms| > 0
    ensures level.width == totalWidth
    ensures level.memes == FlatMap(segments, MemesOf)
    ensures level.trolls == FlatMap(segments, TrollsOf)
    ensures level.flyers == FlatMap(segments, FlyersOf)
    ensures level.finish == FinishSpot(GetLastPlatform(segments[|segments| - 1]))
    ensures level.platforms == Playability.EnsurePlayability(FlatMap(segments, PlatformsOf))
    ensures Sub(Playability.Footprints(FlatMap(segments, PlatformsOf)), Playability.Footprints(level.platforms))
    ensures |FlatMap(segments, PlatformsOf)| <= |level.platforms| <= 2 * |FlatMap(segments, PlatformsOf)| - 1
  {
    var all := FlatMap(segments, PlatformsOf);
    var lastPlatform := GetLastPlatform(segments[|segments| - 1]);
    var finish := FinishSpot(lastPlatform);
    FlatMapContains(segments, PlatformsOf, |segments| - 1, lastPlatform);
    Playability.RepairKeepsOriginals(all);
    Playability.RepairLength(all);
    GeneratedLevel(Playability.EnsurePlayability(all), FlatMap(segments, MemesOf), FlatMap(segments, TrollsOf),
                   FlatMap(segments, FlyersOf), finish, totalWidth)
  }

  /** Difficulty of body segment i of n: i / (n - 1), strictly between 0 and 1. */
  function Difficulty(i: int, n: int): (d: real)
    requires 0 < i < n - 1
    ensures 0.0 < d < 1.0
  {
    var d := i as real / (n - 1) as real;
    assert d * (n - 1) as real == i as real;
    d
  }

  /** Segment s begins at the y of the last platform of the segment before it. */
  predicate Follows(previous: Segment, s: Segment)
  {
    |previous.platforms| > 0 && |s.platforms| > 0 && s.platforms[0].y == GetLastPlatform(previous).y
  }

  /** Segment k of a level follows segment k - 1. */
  predicate AnchoredAt(segments: seq<Segment>, k: int)
  {
    0 < k < |segments| && Follows(segments[k - 1], segments[k])
  }

  /**
   * What generateLevel's loop has built so far: the start platform, then body segment
   * k at 400k with difficulty k/(n - 1), each beginning where the one before ends.
   */
  predicate BuiltPrefix(segments: seq<Segment>, n: int)
  {
    && |segments| > 0
    && segments[0] == CreateStartSegment(0.0)
    && (forall k :: 0 < k < |segments| ==>
          0 < k < n - 1 && IsBodySegment(segments[k], SEGMENT_WIDTH * k as real, Difficulty(k, n)))
    && (forall k :: 0 < k < |segments| ==> AnchoredAt(segments, k))
    && |segments[|segments| - 1].platforms| > 0
  }

  /**
   * generateLevel's loop from iteration i on: body segment i is created at 400i
   * with difficulty i/(n - 1) from the last segment pushed so far, then pushed.
   */
  function BuildLoop(i: nat, n: int, segments: seq<Segment>, rng: nat): (r: (seq<Segment>, nat))
    requires |segments| == i && BuiltPrefix(segments, n)
    ensures |r.0| == if i < n - 1 then n - 1 else i
    ensures BuiltPrefix(r.0, n)
    decreases n - i
  {
    if i >= n - 1 then (segments, rng)
    else
      var last := segments[|segments| - 1];
      var created := CreateSegment(SEGMENT_WIDTH * |segments| as real, Difficulty(|segments|, n), last, rng);
      assert Follows(last, created.0);
      Push(segments, created.0, n);
      BuildLoop(i + 1, n, segments + [created.0], created.1)
  }

  /** Pushing the next body segment keeps the loop's invariant. */
  lemma Push(segments: seq<Segment>, s: Segment, n: int)
    requires BuiltPrefix(segments, n) && |segments| < n - 1
    requires IsBodySegment(s, SEGMENT_WIDTH * |segments| as real, Difficulty(|segments|, n))
    requires Follows(segments[|segments| - 1], s)
    ensures BuiltPrefix(segments + [s], n)
  {
    var r := segments + [s];
    forall k | 0 < k < |r|
      ensures 0 < k < n - 1 && IsBodySegment(r[k], SEGMENT_WIDTH * k as real, Difficulty(k, n))
      ensures AnchoredAt(r, k)
    {
      if k < |segments| {
        assert r[k] == segments[k] && r[k - 1] == segments[k - 1];
        assert AnchoredAt(segments, k);
      } else {
        assert r[k] == s && r[k - 1] == segments[k - 1];
      }
    }
  }

  /** The segments generateLevel builds, the x where the final one starts, and the random state left. */
  datatype Built = Built(segments: seq<Segment>, finalX: real, rng: nat)

  /** How many segments generateLevel builds: numSegments, but never fewer than the start and the final one. */
  function SegmentCount(n: int): nat { if n > 2 then n else 2 }

  /**
   * The layout generateLevel builds for numSegments = n: the loop's segments, then
   * the final segment at 400(count - 1), anchored to the last of them.
   */
  predicate WellBuilt(segments: seq<Segment>, n: int)
  {
    && |segments| == SegmentCount(n)
    && segments[0] == CreateStartSegment(0.0)
    && (forall k :: 0 < k < |segments| - 1 ==>
          0 < k < n - 1 && IsBodySegment(segments[k], SEGMENT_WIDTH * k as real, Difficulty(k, n)))
    && (forall k :: 0 < k < |segments| ==> AnchoredAt(segments, k))
    && |segments[|segments| - 2].platforms| > 0
    && IsFinalSegment(segments[|segments| - 1], SEGMENT_WIDTH * (|segments| - 1) as real,
                      GetLastPlatform(segments[|segments| - 2]).y)
  }

  /** generateLevel's segments: the start segment at 0, the loop's body segments, the final segment last. */
  function BuildSegments(n: int, rng: nat): (b: Built)
    ensures WellBuilt(b.segments, n)
    ensures b.finalX == SEGMENT_WIDTH * (|b.segments| - 1) as real
  {
    var start := CreateStartSegment(0.0);
    var run := BuildLoop(1, n, [start], rng);
    var finalX := SEGMENT_WIDTH * |run.0| as real;
    var final := CreateFinalSegment(finalX, run.0[|run.0| - 1]);
    PushFinal(run.0, final, n);
    Built(run.0 + [final], finalX, run.1)
  }

  /** The final segment, anchored to the loop's last segment, completes a well-built level. */
  lemma PushFinal(segments: seq<Segment>, final: Segment, n: int)
    requires BuiltPrefix(segments, n) && |segments| == SegmentCount(n) - 1
    requires IsFinalSegment(final, SEGMENT_WIDTH * |segments| as real, GetLastPlatform(segments[|segments| - 1]).y)
    ensures WellBuilt(segments + [final], n)
  {
    var r := segments + [final];
    forall k | 0 < k < |r| - 1
      ensures 0 < k < n - 1 && IsBodySegment(r[k], SEGMENT_WIDTH * k as real, Difficulty(k, n))
    {
      assert r[k] == segments[k];
    }
    forall k | 0 < k < |r|
      ensures AnchoredAt(r, k)
    {
      if k < |segments| {
        assert r[k] == segments[k] && r[k - 1] == segments[k - 1];
        assert AnchoredAt(segments, k);
      } else {
        assert r[k] == final && r[k - 1] == segments[k - 1];
      }
    }
  }

  /** setSeed runs only for a truthy seed: a seed of 0 leaves the current state alone. */
  function SeededState(seed: nat, rng: nat): nat
  {
    if seed != 0 then seed else rng
  }

  /**
   * What generateLevel promises of the level merged from well-built segments:
   * it is 400 wide per segment; its entity lists are the body segments' lists in
   * order, with the final segment's one meme last; the finish stands 80 left of
   * the right edge and 100 above where the last segment before the final one
   * ends; the player starts on the untouched start platform; there is at most one
   * flying monster per body segment and each is centred over a platform of the
   * finished level; and the platforms are exactly the merged platforms after
   * the repair pass, so every original survives it with its x, width and height.
   */
  predicate LevelFrom(segs: seq<Segment>, n: int, level: GeneratedLevel)
  {
    && WellBuilt(segs, n)
    && LevelEntities(segs, level)
    && LevelPlatforms(segs, level)
    && LevelFlyersOver(segs, level)
  }

  /** The width, the entity lists and the finish of a level merged from `segs`. */
  predicate LevelEntities(segs: seq<Segment>, level: GeneratedLevel)
  {
    && |segs| >= 2 && |segs[|segs| - 2].platforms| > 0
    && level.width == SEGMENT_WIDTH * |segs| as real
    && level.memes == FlatMap(segs[1..|segs| - 1], MemesOf)
                      + [Pos(level.width - 300.0, GetLastPlatform(segs[|segs| - 2]).y - 30.0)]
    && level.trolls == FlatMap(segs[1..|segs| - 1], TrollsOf)
    && level.flyers == FlatMap(segs[1..|segs| - 1], FlyersOf)
    && level.finish == Pos(level.width - 80.0, GetLastPlatform(segs[|segs| - 2]).y - 100.0)
  }

  /** The platforms of a level merged from `segs`: the repaired merge, beginning with the start platform. */
  predicate LevelPlatforms(segs: seq<Segment>, level: GeneratedLevel)
  {
    && level.platforms == Playability.EnsurePlayability(FlatMap(segs, PlatformsOf))
    && |level.platforms| > 0 && level.platforms[0] == Platform(0.0, GROUND_Y, 300.0, PLATFORM_HEIGHT)
    && Sub(Playability.Footprints(FlatMap(segs, PlatformsOf)), Playability.Footprints(level.platforms))
  }

  /** At most one flying monster per body segment, each centred over a platform of the level. */
  predicate LevelFlyersOver(segs: seq<Segment>, level: GeneratedLevel)
  {
    && |level.flyers| <= |segs| - 2
    && (forall f :: f in level.flyers ==> exists p :: p in level.platforms && f.x == p.x + p.width / 2.0)
  }

  /**
   * generateLevel(numSegments, seed) on a generator whose random state is `rng`;
   * also returns the state left.  numSegments defaults to 6, and an absent seed
   * is 0, which `if (seed)` treats like no seed.
   */
  function GenerateLevel(numSegments: int := 6, seed: nat := 0, rng: nat): (r: (GeneratedLevel, nat))
    ensures r.0.width == SEGMENT_WIDTH * SegmentCount(numSegments) as real
    ensures LevelFrom(BuildSegments(numSegments, SeededState(seed, rng)).segments, numSegments, r.0)
  {
    var built := BuildSegments(numSegments, SeededState(seed, rng));
    var level := CombineSegments(built.segments, built.finalX + SEGMENT_WIDTH);
    CombinedLevel(built.segments, numSegments, level);
    (level, built.rng)
  }

  /** Called without a segment count, generateLevel builds six segments: a level 2400 wide. */
  lemma DefaultLevelWidth(rng: nat)
    ensures GenerateLevel(rng := rng).0.width == 2400.0
  {
  }

  // ---------------------------------------------------------------------
  // The generated level as a whole

  /** A level with what combineSegments promises of well-built segments is a level as LevelFrom describes it. */
  lemma {:induction false} CombinedLevel(segs: seq<Segment>, n: int, level: GeneratedLevel)
    requires WellBuilt(segs, n)
    requires level.width == SEGMENT_WIDTH * |segs| as real
    requires level.memes == FlatMap(segs, MemesOf)
    requires level.trolls == FlatMap(segs, TrollsOf)
    requires level.flyers == FlatMap(segs, FlyersOf)
    requires level.finish == FinishSpot(GetLastPlatform(segs[|segs| - 1]))
    requires level.platforms == Playability.EnsurePlayability(FlatMap(segs, PlatformsOf))
    requires Sub(Playability.Footprints(FlatMap(segs, PlatformsOf)), Playability.Footprints(level.platforms))
    ensures LevelFrom(segs, n, level)
  {
    CombinedEntities(segs, n, level);
    CombinedPlatforms(segs, level);
    WellBuiltFlyers(segs, n);
    LevelFlyers(segs, level);
  }

  /** The entity lists and the finish of the merge, read through the start and final segments' fixed shapes. */
  lemma {:induction false} CombinedEntities(segs: seq<Segment>, n: int, level: GeneratedLevel)
    requires WellBuilt(segs, n)
    requires level.width == SEGMENT_WIDTH * |segs| as real
    requires level.memes == FlatMap(segs, MemesOf)
    requires level.trolls == FlatMap(segs, TrollsOf)
    requires level.flyers == FlatMap(segs, FlyersOf)
    requires level.finish == FinishSpot(GetLastPlatform(segs[|segs| - 1]))
    ensures LevelEntities(segs, level)
  {
    var y := GetLastPlatform(segs[|segs| - 2]).y;
    var finalX := SEGMENT_WIDTH * (|segs| - 1) as real;
    assert finalX + SEGMENT_WIDTH == level.width;
    FinalSpots(segs[|segs| - 1], finalX, y);
    BodyEntities(segs, Pos(level.width - 300.0, y - 30.0), level.memes, level.trolls, level.flyers);
  }

  /** The final segment's meme and the finish its last platform carries, relative to the segment's right edge. */
  lemma {:induction false} FinalSpots(s: Segment, startX: real, anchorY: real)
    requires IsFinalSegment(s, startX, anchorY)
    ensures s.memes == [Pos(startX + SEGMENT_WIDTH - 300.0, anchorY - 30.0)]
    ensures FinishSpot(GetLastPlatform(s)) == Pos(startX + SEGMENT_WIDTH - 80.0, anchorY - 100.0)
  {
  }

  /** The repaired merge begins with the start segment's platform, which the pass leaves alone. */
  lemma {:induction false} CombinedPlatforms(segs: seq<Segment>, level: GeneratedLevel)
    requires |segs| > 0 && segs[0].platforms == [Platform(0.0, GROUND_Y, 300.0, PLATFORM_HEIGHT)]
    requires level.platforms == Playability.EnsurePlayability(FlatMap(segs, PlatformsOf))
    requires Sub(Playability.Footprints(FlatMap(segs, PlatformsOf)), Playability.Footprints(level.platforms))
    ensures LevelPlatforms(segs, level)
  {
    var all := FlatMap(segs, PlatformsOf);
    assert all == segs[0].platforms + FlatMap(segs[1..], PlatformsOf);
    Playability.RepairKeepsFirst(all);
  }

  /**
   * The repair pass's guarantees, read on a generated level: at most one bridge
   * per original adjacent pair, platforms only moved down, and in every pair of
   * originals that are not slabs the second, as adjusted, rises at most a jump
   * above the first, as adjusted.
   */
  lemma {:induction false} RepairedLevel(segs: seq<Segment>, n: int, level: GeneratedLevel)
    requires LevelFrom(segs, n, level)
    ensures var all := FlatMap(segs, PlatformsOf);
            var steps := Playability.RepairSteps(all);
            && level.platforms == Playability.Flatten(steps)
            && |all| <= |level.platforms| <= 2 * |all| - 1
            && (forall j :: 0 <= j < |all| ==> steps[j].kept.y >= all[j].y)
            && (forall j :: 0 <= j < |all| - 1 && !Playability.IsSlab(all[j]) && !Playability.IsSlab(all[j + 1]) ==>
                  steps[j].kept.y - steps[j + 1].kept.y <= Playability.JUMP_HEIGHT)
  {
    var all := FlatMap(segs, PlatformsOf);
    assert all == segs[0].platforms + FlatMap(segs[1..], PlatformsOf);
    RepairedMerge(all, level.platforms);
  }

  lemma {:induction false} RepairedMerge(all: seq<Platform>, platforms: seq<Platform>)
    requires |all| > 0 && platforms == Playability.EnsurePlayability(all)
    ensures var steps := Playability.RepairSteps(all);
            && platforms == Playability.Flatten(steps)
            && |all| <= |platforms| <= 2 * |all| - 1
            && (forall j :: 0 <= j < |all| ==> steps[j].kept.y >= all[j].y)
            && (forall j :: 0 <= j < |all| - 1 && !Playability.IsSlab(all[j]) && !Playability.IsSlab(all[j + 1]) ==>
                  steps[j].kept.y - steps[j + 1].kept.y <= Playability.JUMP_HEIGHT)
  {
    Playability.RepairLength(all);
    Playability.RepairBoundsAscent(all);
  }

  /** Dropping the start segment, which carries nothing, and the final one, which carries one meme. */
  lemma BodyEntities(segs: seq<Segment>, meme: Pos, memes: seq<Pos>, trolls: seq<Pos>, flyers: seq<Pos>)
    requires |segs| >= 2
    requires segs[0].memes == [] && segs[0].trolls == [] && segs[0].flyers == []
    requires segs[|segs| - 1].memes == [meme] && segs[|segs| - 1].trolls == [] && segs[|segs| - 1].flyers == []
    requires memes == FlatMap(segs, MemesOf) && trolls == FlatMap(segs, TrollsOf) && flyers == FlatMap(segs, FlyersOf)
    ensures memes == FlatMap(segs[1..|segs| - 1], MemesOf) + [meme]
    ensures trolls == FlatMap(segs[1..|segs| - 1], TrollsOf)
    ensures flyers == FlatMap(segs[1..|segs| - 1], FlyersOf)
  {
    var middle := segs[1..|segs| - 1];
    assert segs == [segs[0]] + middle + [segs[|segs| - 1]];
    FlatMapEmptyEnds(segs[0], middle, segs[|segs| - 1], MemesOf);
    FlatMapEmptyEnds(segs[0], middle, segs[|segs| - 1], TrollsOf);
    FlatMapEmptyEnds(segs[0], middle, segs[|segs| - 1], FlyersOf);
  }

  /** What each body segment promises about its flying monsters. */
  predicate BodyFlyers(segs: seq<Segment>)
  {
    forall k :: 0 < k < |segs| - 1 ==>
      |segs[k].flyers| <= 1 && Hovers(segs[k].flyers, segs[k].platforms, SEGMENT_WIDTH * k as real + 200.0)
  }

  lemma WellBuiltFlyers(segs: seq<Segment>, n: int)
    requires WellBuilt(segs, n)
    ensures BodyFlyers(segs)
  {
    forall k | 0 < k < |segs| - 1
      ensures |segs[k].flyers| <= 1 && Hovers(segs[k].flyers, segs[k].platforms, SEGMENT_WIDTH * k as real + 200.0)
    {
      assert IsBodySegment(segs[k], SEGMENT_WIDTH * k as real, Difficulty(k, n));
    }
  }

  /**
   * At most one flying monster per body segment, and each one is centred over a
   * platform of the finished level (the pass keeps every original's x and width).
   */
  lemma LevelFlyers(segs: seq<Segment>, level: GeneratedLevel)
    requires |segs| >= 2 && BodyFlyers(segs)
    requires level.flyers == FlatMap(segs[1..|segs| - 1], FlyersOf)
    requires Sub(Playability.Footprints(FlatMap(segs, PlatformsOf)), Playability.Footprints(level.platforms))
    ensures |level.flyers| <= |segs| - 2
    ensures forall f :: f in level.flyers ==> exists p :: p in level.platforms && f.x == p.x + p.width / 2.0
  {
    var bodies := segs[1..|segs| - 1];
    forall i | 0 <= i < |bodies|
      ensures |FlyersOf(bodies[i])| <= 1
    {
      assert bodies[i] == segs[i + 1];
    }
    FlatMapLength(bodies, FlyersOf, 1);
    forall f | f in level.flyers
      ensures exists p :: p in level.platforms && f.x == p.x + p.width / 2.0
    {
      FlatMapMember(bodies, FlyersOf, f);
      var i :| 0 <= i < |bodies| && f in FlyersOf(bodies[i]);
      assert bodies[i] == segs[i + 1];
      FlyerOnLevelPlatform(segs, level, i + 1, f);
    }
  }

  /** A flying monster of body segment k lies over a platform that survives into the level. */
  lemma {:induction false} FlyerOnLevelPlatform(segs: seq<Segment>, level: GeneratedLevel, k: int, f: Pos)
    requires 0 < k < |segs| && f in segs[k].flyers
    requires Hovers(segs[k].flyers, segs[k].platforms, SEGMENT_WIDTH * k as real + 200.0)
    requires Sub(Playability.Footprints(FlatMap(segs, PlatformsOf)), Playability.Footprints(level.platforms))
    ensures exists p :: p in level.platforms && f.x == p.x + p.width / 2.0
  {
    var s := segs[k];
    HoversOver(s.flyers, s.platforms, SEGMENT_WIDTH * k as real + 200.0, f);
    var p :| p in s.platforms && p.x > SEGMENT_WIDTH * k as real + 200.0 && FlyerOver(f, p);
    var all := FlatMap(segs, PlatformsOf);
    FlatMapContains(segs, PlatformsOf, k, p);
    var a :| 0 <= a < |all| && all[a] == p;
    var marks := Playability.Footprints(all);
    assert marks[a] == (p.x, p.width, p.height);
    assert marks[a] in marks;
    SubBounds(marks, Playability.Footprints(level.platforms));
    var b :| 0 <= b < |level.platforms| && Playability.Footprints(level.platforms)[b] == (p.x, p.width, p.height);
    assert level.platforms[b] in level.platforms;
  }
}
