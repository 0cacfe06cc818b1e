/**
 * The keyboard state behind the game's controls: which key codes are down
 * now, which were down when the last frame ended, and the queries built on
 * the two.  Key events arrive as abstract keydown/keyup events carrying a
 * key code; the listener wiring that delivers them is not part of the model.
 */
module Input {
  import opened Geometry

  const SPACE: string := "Space"
  const ARROW_UP: string := "ArrowUp"
  const ARROW_DOWN: string := "ArrowDown"
  const ARROW_LEFT: string := "ArrowLeft"
  const ARROW_RIGHT: string := "ArrowRight"
  const KEY_W: string := "KeyW"
  const KEY_A: string := "KeyA"
  const KEY_S: string := "KeyS"
  const KEY_D: string := "KeyD"
  const KEY_E: string := "KeyE"

  /** The two key maps; a code missing from a map reads as not pressed. */
  datatype InputState = InputState(keys: map<string, bool>, previousKeys: map<string, bool>)

  datatype KeyEvent = KeyDown(code: string) | KeyUp(code: string)

  /** `m[code] || false`: true only for a code the map holds as true. */
  predicate Held(m: map<string, bool>, code: string)
  {
    code in m && m[code]
  }

  /** A fresh manager: both maps empty, so nothing is pressed. */
  function NewInput(): (s: InputState)
    ensures forall code :: !IsKeyPressed(s, code) && !IsKeyJustPressed(s, code)
  {
    InputState(map[], map[])
  }

  /** The keydown listener sets the code to true, the keyup listener to false; nothing else changes. */
  function HandleEvent(s: InputState, e: KeyEvent): (t: InputState)
    ensures t.previousKeys == s.previousKeys
    ensures IsKeyPressed(t, e.code) <==> e.KeyDown?
    ensures forall code :: code != e.code ==> IsKeyPressed(t, code) == IsKeyPressed(s, code)
  {
    match e
    case KeyDown(code) => s.(keys := s.keys[code := true])
    case KeyUp(code) => s.(keys := s.keys[code := false])
  }

  /** The events of one frame, delivered in order. */
  function HandleEvents(s: InputState, events: seq<KeyEvent>): (t: InputState)
    ensures t.previousKeys == s.previousKeys
    decreases |events|
  {
    if |events| == 0 then s else HandleEvents(HandleEvent(s, events[0]), events[1..])
  }

  /** isKeyPressed. */
  predicate IsKeyPressed(s: InputState, code: string)
  {
    Held(s.keys, code)
  }

  /** isKeyJustPressed: down now and not down at the last update (a missing entry counts as up). */
  predicate IsKeyJustPressed(s: InputState, code: string)
  {
    Held(s.keys, code) && !Held(s.previousKeys, code)
  }

  /** isJumpPressed: a rising edge on Space, ArrowUp or KeyW. */
  predicate IsJumpPressed(s: InputState)
  {
    || (Held(s.keys, SPACE) && !Held(s.previousKeys, SPACE))
    || (Held(s.keys, ARROW_UP) && !Held(s.previousKeys, ARROW_UP))
    || (Held(s.keys, KEY_W) && !Held(s.previousKeys, KEY_W))
  }

  /** isInteractPressed: a rising edge on KeyE. */
  predicate IsInteractPressed(s: InputState)
  {
    IsKeyJustPressed(s, KEY_E)
  }

  /** update: the end of a frame copies the current keys into the previous ones. */
  function Update(s: InputState): (t: InputState)
    ensures forall code :: IsKeyPressed(t, code) == IsKeyPressed(s, code)
    ensures forall code :: !IsKeyJustPressed(t, code)
    ensures !IsJumpPressed(t) && !IsInteractPressed(t)
  {
    InputState(s.keys, s.keys)
  }

  /** The sum of a -1 key pair and a +1 key pair, each counted once however many of its keys are held. */
  function Axis(negative: bool, positive: bool): int
  {
    (if negative then -1 else 0) + (if positive then 1 else 0)
  }

  /** getHorizontalInput: -1 for left (ArrowLeft or KeyA), +1 for right (ArrowRight or KeyD). */
  function HorizontalInput(s: InputState): (r: int)
    ensures -1 <= r <= 1
    ensures var left := IsKeyPressed(s, ARROW_LEFT) || IsKeyPressed(s, KEY_A);
            var right := IsKeyPressed(s, ARROW_RIGHT) || IsKeyPressed(s, KEY_D);
            && (r == -1 <==> left && !right)
            && (r == 1 <==> right && !left)
            && (r == 0 <==> left == right)
  {
    Axis(IsKeyPressed(s, ARROW_LEFT) || IsKeyPressed(s, KEY_A), IsKeyPressed(s, ARROW_RIGHT) || IsKeyPressed(s, KEY_D))
  }

  /** getVerticalInput: -1 for up (ArrowUp or KeyW), +1 for down (ArrowDown or KeyS). */
  function VerticalInput(s: InputState): (r: int)
    ensures -1 <= r <= 1
    ensures var up := IsKeyPressed(s, ARROW_UP) || IsKeyPressed(s, KEY_W);
            var down := IsKeyPressed(s, ARROW_DOWN) || IsKeyPressed(s, KEY_S);
            && (r == -1 <==> up && !down)
            && (r == 1 <==> down && !up)
            && (r == 0 <==> up == down)
  {
    Axis(IsKeyPressed(s, ARROW_UP) || IsKeyPressed(s, KEY_W), IsKeyPressed(s, ARROW_DOWN) || IsKeyPressed(s, KEY_S))
  }

  /** getPressedKeys, as a set: exactly the codes that read as pressed. */
  function GetPressedKeys(s: InputState): (r: set<string>)
    ensures forall code :: code in r <==> IsKeyPressed(s, code)
  {
    set code | code in s.keys && s.keys[code]
  }

  // ---------------------------------------------------------------------
  // Reference reading of a frame's events

  /** The last event of the frame for `code`: Some(true) for a keydown, Some(false) for a keyup. */
  function LastFor(events: seq<KeyEvent>, code: string): Option<bool>
    decreases |events|
  {
    if |events| == 0 then None
    else if events[|events| - 1].code == code then Some(events[|events| - 1].KeyDown?)
    else LastFor(events[..|events| - 1], code)
  }

  /** After a frame's events a key is pressed iff its last event was a keydown, or it had none and was pressed before. */
  lemma {:induction false} EventsDecideKey(s: InputState, events: seq<KeyEvent>, code: string)
    ensures IsKeyPressed(HandleEvents(s, events), code) ==
            match LastFor(events, code)
            case Some(down) => down
            case None => IsKeyPressed(s, code)
    decreases |events|
  {
    if |events| > 0 {
      var init, last := events[..|events| - 1], events[|events| - 1];
      HandleEventsSnoc(s, init, last);
      assert events == init + [last];
      EventsDecideKey(s, init, code);
    }
  }

  /** Delivering one more event after a batch. */
  lemma {:induction false} HandleEventsSnoc(s: InputState, events: seq<KeyEvent>, e: KeyEvent)
    ensures HandleEvents(s, events + [e]) == HandleEvent(HandleEvents(s, events), e)
    decreases |events|
  {
    if |events| == 0 {
      assert [e][1..] == [];
    } else {
      assert (events + [e])[1..] == events[1..] + [e];
      HandleEventsSnoc(HandleEvent(s, events[0]), events[1..], e);
    }
  }

  /**
   * Edge detection across a frame: after update and then the frame's events, a
   * key is just pressed iff it was up when the frame began and its last event
   * in the frame was a keydown.
   */
  lemma JustPressedAfterFrame(s: InputState, events: seq<KeyEvent>, code: string)
    ensures IsKeyJustPressed(HandleEvents(Update(s), events), code) <==>
            !IsKeyPressed(s, code) && LastFor(events, code) == Some(true)
  {
    var t := HandleEvents(Update(s), events);
    EventsDecideKey(Update(s), events, code);
    assert Held(t.previousKeys, code) == IsKeyPressed(s, code);
  }

  /** isJumpPressed is exactly isKeyJustPressed on one of the three jump keys. */
  lemma JumpIsJustPressed(s: InputState)
    ensures IsJumpPressed(s) <==> exists code :: code in {SPACE, ARROW_UP, KEY_W} && IsKeyJustPressed(s, code)
  {
    var jumpKeys := {SPACE, ARROW_UP, KEY_W};
    if IsJumpPressed(s) {
      if IsKeyJustPressed(s, SPACE) {
        assert SPACE in jumpKeys;
      } else if IsKeyJustPressed(s, ARROW_UP) {
        assert ARROW_UP in jumpKeys;
      } else {
        assert KEY_W in jumpKeys;
      }
    }
    if exists code :: code in jumpKeys && IsKeyJustPressed(s, code) {
      var code :| code in jumpKeys && IsKeyJustPressed(s, code);
      assert code == SPACE || code == ARROW_UP || code == KEY_W;
    }
  }

  /** A jump registers once per press: in the frame after it, with no new events, it is gone. */
  lemma JumpOncePerPress(s: InputState)
    ensures !IsJumpPressed(HandleEvents(Update(s), []))
  {
  }
}
