/**
 * ensurePlayability: one left-to-right pass over the merged platform list that
 * inserts a bridge platform where a gap is too wide and lowers a platform that
 * sits too far above its left neighbour.  Each original adjacent pair is looked
 * at exactly once; a bridge is never checked against the platform after it.
 */
module Playability {
  import opened Geometry
  import opened Seqs

  const JUMP_HEIGHT: real := 120.0
  /** Platforms thicker than this are slabs, which the pass skips. */
  const SLAB_HEIGHT: real := 30.0
  const BRIDGE_WIDTH: real := 100.0
  const BRIDGE_HEIGHT: real := 20.0

  predicate IsSlab(p: Platform) { p.height > SLAB_HEIGHT }

  /** Horizontal distance from the right edge of `cur` to the left edge of `next`, as an absolute value. */
  function Gap(cur: Platform, next: Platform): real { Abs(next.x - (cur.x + cur.width)) }

  predicate NeedsBridge(cur: Platform, next: Platform) { Gap(cur, next) > JUMP_DISTANCE * 0.9 }

  /** The inserted platform: 70% of a jump past `cur`, with the descent towards `next` capped at 40. */
  function Bridge(cur: Platform, next: Platform): Platform
  {
    Platform(cur.x + cur.width + JUMP_DISTANCE * 0.7, cur.y + Min((next.y - cur.y) / 2.0, 40.0), BRIDGE_WIDTH, BRIDGE_HEIGHT)
  }

  /** `next` rises more than a jump above `cur` (smaller y is higher). */
  predicate TooHigh(cur: Platform, next: Platform) { Abs(next.y - cur.y) > JUMP_HEIGHT && next.y < cur.y }

  function Lowered(cur: Platform, next: Platform): Platform { next.(y := cur.y - JUMP_HEIGHT + 30.0) }

  /** What handling the pair (cur, next) inserts after `cur`. */
  function PairBridge(cur: Platform, next: Platform): Option<Platform>
  {
    if !IsSlab(cur) && !IsSlab(next) && NeedsBridge(cur, next) then Some(Bridge(cur, next)) else None
  }

  /** What `next` looks like once the pair (cur, next) has been handled. */
  function PairNext(cur: Platform, next: Platform): Platform
  {
    if !IsSlab(cur) && !IsSlab(next) && TooHigh(cur, next) then Lowered(cur, next) else next
  }

  /** x, width and height: the part of a platform the pass never changes. */
  predicate SameFootprint(p: Platform, q: Platform) { p.x == q.x && p.width == q.width && p.height == q.height }

  /** One original platform as it leaves the pass, with the bridge inserted after it, if any. */
  datatype Step = Step(kept: Platform, bridge: Option<Platform>)

  function StepPlatforms(s: Step): seq<Platform>
  {
    [s.kept] + (if s.bridge.Some? then [s.bridge.value] else [])
  }

  function Flatten(steps: seq<Step>): seq<Platform>
  {
    FlatMap(steps, StepPlatforms)
  }

  /**
   * The loop from the platform at hand, `cur` (already adjusted by the previous
   * pair), over the untouched originals `rest`.  Pair j is handled with the
   * adjusted j-th platform and the original (j+1)-th one.
   */
  function RepairFrom(cur: Platform, rest: seq<Platform>): (steps: seq<Step>)
    ensures |steps| == |rest| + 1
    ensures steps[0].kept == cur
    ensures steps[|rest|].bridge == None
    ensures forall j {:trigger rest[j]} :: 0 <= j < |rest| ==> SameFootprint(steps[j + 1].kept, rest[j])
    ensures forall j {:trigger rest[j]} :: 0 <= j < |rest| ==> steps[j + 1].kept == PairNext(steps[j].kept, rest[j])
    ensures forall j {:trigger rest[j]} :: 0 <= j < |rest| ==> steps[j].bridge == PairBridge(steps[j].kept, rest[j])
    decreases |rest|
  {
    if |rest| == 0 then [Step(cur, None)]
    else
      var next := rest[0];
      if IsSlab(cur) || IsSlab(next) then
        [Step(cur, None)] + RepairFrom(next, rest[1..])
      else
        var bridge := if NeedsBridge(cur, next) then Some(Bridge(cur, next)) else None;
        var next' := if TooHigh(cur, next) then Lowered(cur, next) else next;
        [Step(cur, bridge)] + RepairFrom(next', rest[1..])
  }

  /** The per-original record of the pass over `ps`. */
  function RepairSteps(ps: seq<Platform>): (steps: seq<Step>)
    ensures |steps| == |ps|
    ensures |ps| > 0 ==> steps[0].kept == ps[0]
    ensures forall j :: 0 <= j < |ps| ==> SameFootprint(steps[j].kept, ps[j])
  {
    if |ps| == 0 then [] else RepairFrom(ps[0], ps[1..])
  }

  /** ensurePlayability, on an immutable list: the platforms after the single repair pass. */
  function EnsurePlayability(ps: seq<Platform>): seq<Platform>
  {
    Flatten(RepairSteps(ps))
  }

  lemma FlattenCons(s: Step, steps: seq<Step>)
    ensures Flatten([s] + steps) == StepPlatforms(s) + Flatten(steps)
  {
    assert ([s] + steps)[1..] == steps;
  }

  // ---------------------------------------------------------------------
  // What the pass guarantees, and what it does not

  /** Footprints of a platform list, in order. */
  function Footprints(ps: seq<Platform>): seq<(real, real, real)>
  {
    seq(|ps|, i requires 0 <= i < |ps| => (ps[i].x, ps[i].width, ps[i].height))
  }

  lemma {:induction false} FlattenKeepsKept(steps: seq<Step>)
    ensures Sub(Footprints(seq(|steps|, j requires 0 <= j < |steps| => steps[j].kept)), Footprints(Flatten(steps)))
    ensures |steps| <= |Flatten(steps)|
    decreases |steps|
  {
    var kept := seq(|steps|, j requires 0 <= j < |steps| => steps[j].kept);
    if |steps| == 0 {
    } else {
      var s := steps[0];
      var tail := steps[1..];
      var keptTail := seq(|tail|, j requires 0 <= j < |tail| => tail[j].kept);
      FlattenKeepsKept(tail);
      assert steps == [s] + tail;
      FlattenCons(s, tail);
      var k := (s.kept.x, s.kept.width, s.kept.height);
      assert Footprints(kept) == [k] + Footprints(keptTail);
      var rest := Footprints(Flatten(tail));
      if s.bridge.Some? {
        var b := s.bridge.value;
        var kb := (b.x, b.width, b.height);
        assert Footprints(Flatten(steps)) == [k] + ([kb] + rest);
        SubSkip(Footprints(keptTail), kb, rest);
        SubKeep(k, Footprints(keptTail), [kb] + rest);
      } else {
        assert Footprints(Flatten(steps)) == [k] + rest;
        SubKeep(k, Footprints(keptTail), rest);
      }
    }
  }

  /**
   * The pass only inserts: the originals survive in their order with x, width
   * and height untouched, so their footprints form a subsequence of the result.
   */
  lemma RepairKeepsOriginals(ps: seq<Platform>)
    ensures Sub(Footprints(ps), Footprints(EnsurePlayability(ps)))
  {
    var steps := RepairSteps(ps);
    var kept := seq(|steps|, j requires 0 <= j < |steps| => steps[j].kept);
    FlattenKeepsKept(steps);
    assert Footprints(kept) == Footprints(ps);
  }

  lemma {:induction false} FlattenLength(steps: seq<Step>)
    requires |steps| > 0 && steps[|steps| - 1].bridge == None
    ensures |steps| <= |Flatten(steps)| <= 2 * |steps| - 1
    decreases |steps|
  {
    FlattenCons(steps[0], steps[1..]);
    assert steps == [steps[0]] + steps[1..];
    if |steps| > 1 {
      FlattenLength(steps[1..]);
    }
  }

  /** The first platform is never the `next` of a pair, so it leaves the pass untouched. */
  lemma RepairKeepsFirst(ps: seq<Platform>)
    requires |ps| > 0
    ensures |EnsurePlayability(ps)| > 0 && EnsurePlayability(ps)[0] == ps[0]
  {
    var steps := RepairSteps(ps);
    assert steps == [steps[0]] + steps[1..];
    FlattenCons(steps[0], steps[1..]);
  }

  /** At most one platform is inserted per original adjacent pair, and none is removed. */
  lemma RepairLength(ps: seq<Platform>)
    ensures |ps| <= |EnsurePlayability(ps)|
    ensures |ps| > 0 ==> |EnsurePlayability(ps)| <= 2 * |ps| - 1
  {
    if |ps| > 0 {
      FlattenLength(RepairSteps(ps));
    }
  }

  /**
   * What the pass does to each original adjacent pair (j, j + 1), with j as it
   * stands after the pair before it was handled: a pair involving a slab is
   * left alone; otherwise a bridge of width 100 and height 20 is inserted 84
   * right of j's right edge exactly when the gap is wider than 108, and j + 1
   * is lowered to 90 above j exactly when it rises more than 120 above it.
   * Nothing is inserted after the last platform.
   */
  lemma RepairPairs(ps: seq<Platform>)
    requires |ps| > 0
    ensures RepairSteps(ps)[|ps| - 1].bridge == None
    ensures forall j :: 0 <= j < |ps| - 1 ==> PairHandled(ps[j], RepairSteps(ps)[j], ps[j + 1], RepairSteps(ps)[j + 1].kept)
  {
    var steps := RepairSteps(ps);
    forall j | 0 <= j < |ps| - 1
      ensures PairHandled(ps[j], steps[j], ps[j + 1], steps[j + 1].kept)
    {
      assert ps[1..][j] == ps[j + 1];
      PairFacts(ps[j], steps[j], ps[j + 1], steps[j + 1].kept);
    }
  }

  /**
   * The pair (original, next) has been handled as the loop handles it: `cur` is
   * the original as it stood then, with the bridge inserted after it, and
   * `after` is what became of `next`.
   */
  predicate PairHandled(original: Platform, cur: Step, next: Platform, after: Platform)
  {
    && (IsSlab(original) || IsSlab(next) ==> cur.bridge == None && after == next)
    && (cur.bridge.Some? <==> !IsSlab(original) && !IsSlab(next) && Gap(cur.kept, next) > 108.0)
    && (cur.bridge.Some? ==>
          cur.bridge.value.x == cur.kept.x + cur.kept.width + 84.0
          && cur.bridge.value.width == 100.0 && cur.bridge.value.height == 20.0)
    && (after != next <==> !IsSlab(original) && !IsSlab(next) && next.y < cur.kept.y - JUMP_HEIGHT)
    && (after != next ==> after == next.(y := cur.kept.y - 90.0))
  }

  lemma PairFacts(original: Platform, cur: Step, next: Platform, after: Platform)
    requires SameFootprint(cur.kept, original)
    requires cur.bridge == PairBridge(cur.kept, next) && after == PairNext(cur.kept, next)
    ensures PairHandled(original, cur, next, after)
  {
    assert IsSlab(cur.kept) == IsSlab(original);
  }

  /**
   * After the pass, no original jump node sits more than a jump above the
   * original before it, and platforms only ever move down.
   */
  lemma RepairBoundsAscent(ps: seq<Platform>)
    ensures forall j :: 0 <= j < |ps| ==> RepairSteps(ps)[j].kept.y >= ps[j].y
    ensures forall j :: 0 <= j < |ps| - 1 && !IsSlab(ps[j]) && !IsSlab(ps[j + 1]) ==>
      RepairSteps(ps)[j].kept.y - RepairSteps(ps)[j + 1].kept.y <= JUMP_HEIGHT
  {
    var steps := RepairSteps(ps);
    if |ps| > 0 {
      forall j | 0 <= j < |ps| - 1
        ensures steps[j + 1].kept == PairNext(steps[j].kept, ps[j + 1])
      {
        assert ps[1..][j] == ps[j + 1];
      }
      forall j | 0 <= j < |ps|
        ensures steps[j].kept.y >= ps[j].y
      {
        if j > 0 {
          assert steps[j].kept == PairNext(steps[j - 1].kept, ps[j]);
        }
      }
    }
  }

  /**
   * The pass is best-effort: for this pair it inserts a bridge that itself rises
   * 150 above the first platform and still leaves a 216-wide gap before the second.
   */
  lemma SinglePassIsBestEffort()
    ensures EnsurePlayability([Platform(0.0, 500.0, 100.0, 20.0), Platform(500.0, 200.0, 100.0, 20.0)])
      == [Platform(0.0, 500.0, 100.0, 20.0), Platform(184.0, 350.0, 100.0, 20.0), Platform(500.0, 410.0, 100.0, 20.0)]
    ensures TooHigh(Platform(0.0, 500.0, 100.0, 20.0), Platform(184.0, 350.0, 100.0, 20.0))
    ensures NeedsBridge(Platform(184.0, 350.0, 100.0, 20.0), Platform(500.0, 410.0, 100.0, 20.0))
  {
    var a := Platform(0.0, 500.0, 100.0, 20.0);
    var b := Platform(500.0, 200.0, 100.0, 20.0);
    assert [a, b][1..] == [b];
    assert RepairFrom(b.(y := 410.0), []) == [Step(b.(y := 410.0), None)];
    FlattenCons(Step(a, Some(Platform(184.0, 350.0, 100.0, 20.0))), [Step(b.(y := 410.0), None)]);
  }

  // ---------------------------------------------------------------------
  // ensurePlayability's in-place loop

  /**
   * The loop as written: index i, splice of the bridge followed by an extra
   * i++, mutation of `next`, and the cap of 2n iterations.  It computes the
   * same list as EnsurePlayability, and the cap never cuts it short: the loop
   * runs exactly once per original adjacent pair.
   */
  method EnsurePlayabilityInPlace(platforms: seq<Platform>) returns (out: seq<Platform>, iterations: nat)
    ensures out == EnsurePlayability(platforms)
    ensures iterations == if |platforms| == 0 then 0 else |platforms| - 1
    ensures iterations < 2 * |platforms| || |platforms| == 0
  {
    out := platforms;
    iterations := 0;
    var maxIterations := |platforms| * 2;
    if |platforms| == 0 {
      return;
    }
    var i := 0;
    assert out[..0] + RepairTail(out[0], out[1..]) == RepairTail(platforms[0], platforms[1..]);
    while i < |out| - 1 && iterations < maxIterations
      invariant 0 <= i < |out|
      invariant iterations <= |platforms| - 1
      invariant |out| - 1 - i == |platforms| - 1 - iterations
      invariant out[i + 1..] == platforms[iterations + 1..]
      invariant out[..i] + RepairTail(out[i], out[i + 1..]) == RepairTail(platforms[0], platforms[1..])
      decreases |out| - i
    {
      ghost var front, current, next, back := out[..i], out[i], out[i + 1], out[i + 2..];
      iterations := iterations + 1;
      out, i := HandlePair(out, i);
      i := i + 1;
      LoopStep(front, current, next, back, out, i);
    }
    assert i == |out| - 1 && out[i + 1..] == [];
    assert out[..i] + [out[i]] == out;
    RepairTailIsFlatten(platforms[0], platforms[1..]);
  }

  /**
   * The body of the loop for the pair at index i: skip slabs, splice in a
   * bridge (stepping i over it), lower `next` if it is too high.
   */
  method HandlePair(platforms: seq<Platform>, i: nat) returns (out: seq<Platform>, i': nat)
    requires i + 1 < |platforms|
    ensures out == platforms[..i] + [platforms[i]] + BridgeList(platforms[i], platforms[i + 1])
                   + [PairNext(platforms[i], platforms[i + 1])] + platforms[i + 2..]
    ensures i' == i + |BridgeList(platforms[i], platforms[i + 1])|
  {
    out, i' := platforms, i;
    var current := platforms[i];
    var next := platforms[i + 1];
    ghost var front, back := platforms[..i], platforms[i + 2..];
    assert platforms == front + [current] + [next] + back;
    if IsSlab(current) || IsSlab(next) {
      return;
    }
    if NeedsBridge(current, next) {
      out := out[..i' + 1] + [Bridge(current, next)] + out[i' + 1..];
      i' := i' + 1;
      assert out == front + [current] + [Bridge(current, next)] + [next] + back;
    }
    if TooHigh(current, next) {
      SpliceReplace(out, front + [current] + BridgeList(current, next), next, Lowered(current, next), back);
      out := out[i' + 1 := Lowered(current, next)];
    }
  }

  /** The platforms handling pair (cur, next) puts after `cur`: the bridge, if any. */
  function BridgeList(cur: Platform, next: Platform): seq<Platform>
  {
    var b := PairBridge(cur, next);
    if b.Some? then [b.value] else []
  }

  /** The pass from `cur` over `rest`, written directly as the list it produces. */
  function RepairTail(cur: Platform, rest: seq<Platform>): seq<Platform>
    decreases |rest|
  {
    if |rest| == 0 then [cur]
    else [cur] + BridgeList(cur, rest[0]) + RepairTail(PairNext(cur, rest[0]), rest[1..])
  }

  lemma {:induction false} RepairTailIsFlatten(cur: Platform, rest: seq<Platform>)
    ensures RepairTail(cur, rest) == Flatten(RepairFrom(cur, rest))
    decreases |rest|
  {
    if |rest| == 0 {
      assert RepairFrom(cur, rest) == [Step(cur, None)];
      FlattenCons(Step(cur, None), []);
      assert [Step(cur, None)] + [] == [Step(cur, None)];
      assert StepPlatforms(Step(cur, None)) == [cur];
    } else {
      var step := Step(cur, PairBridge(cur, rest[0]));
      RepairFromUnfold(cur, rest);
      FlattenCons(step, RepairFrom(PairNext(cur, rest[0]), rest[1..]));
      RepairTailIsFlatten(PairNext(cur, rest[0]), rest[1..]);
    }
  }

  lemma SpliceReplace(s: seq<Platform>, front: seq<Platform>, was: Platform, now: Platform, back: seq<Platform>)
    requires s == front + [was] + back
    ensures s[|front| := now] == front + [now] + back
  {
  }

  lemma RepairFromUnfold(cur: Platform, rest: seq<Platform>)
    requires |rest| > 0
    ensures RepairFrom(cur, rest) == [Step(cur, PairBridge(cur, rest[0]))] + RepairFrom(PairNext(cur, rest[0]), rest[1..])
  {
  }

  /** One turn of the loop: it moves the index past `cur` and its bridge, leaving the overall result unchanged. */
  lemma LoopStep(front: seq<Platform>, cur: Platform, next: Platform, back: seq<Platform>, out: seq<Platform>, i: nat)
    requires out == front + [cur] + BridgeList(cur, next) + [PairNext(cur, next)] + back
    requires i == |front| + 1 + |BridgeList(cur, next)|
    ensures i < |out| && out[i + 1..] == back
    ensures out[..i] + RepairTail(out[i], out[i + 1..]) == front + RepairTail(cur, [next] + back)
  {
    assert out[..i] == front + [cur] + BridgeList(cur, next);
    assert out[i] == PairNext(cur, next);
    assert out[i + 1..] == back;
    assert ([next] + back)[1..] == back;
  }
}
