/** The entry point of the current frontend: the keyboard state machine over
    the interface mode and the animation, the animation step, and resizing. */
module App {
  import opened Wrappers
  import opened Viewport
  import opened Canvas

  /** `BLOCK_WIDTH` of the entry point. */
  const BlockWidth: real := 10.0

  /** The `event.code` values the entry point distinguishes. */
  datatype Key = Space | KeyI | Escape | KeyR | OtherKey

  /** The part of the interface state a key press acts on: the mode, and
      whether an animation frame is pending. */
  datatype Control = Control(mode: Mode, running: bool)

  /** `handleKeyDown`: the new control state and the engine calls and redraws
      the key causes. Space forces NORMAL and starts or stops the animation
      (starting it runs one step at once); KeyI switches between INSERT and
      NORMAL; Escape returns to NORMAL; KeyR clears the universe in INSERT
      mode only. */
  function KeyStep(c: Control, key: Key): (r: (Control, seq<Effect>))
    ensures key != KeyR ==> r.1 == [] || r.1 == [Tick, Render]
    ensures r.0.running != c.running ==> key == Space
  {
    match key
    case Space => if c.running then (Control(Normal, false), []) else (Control(Normal, true), [Tick, Render])
    case KeyI => (Control(if c.mode != Insert then Insert else Normal, c.running), [])
    case Escape => (Control(Normal, c.running), [])
    case KeyR => (c, if c.mode == Insert then [Reset, Render] else [])
    case OtherKey => (c, [])
  }

  /** Space always leaves NORMAL mode and flips whether the animation runs;
      pressing it twice restores the animation state. */
  lemma SpaceToggles(c: Control)
    ensures KeyStep(c, Space).0 == Control(Normal, !c.running)
    ensures KeyStep(KeyStep(c, Space).0, Space).0 == Control(Normal, c.running)
    ensures Tick in KeyStep(c, Space).1 <==> !c.running
  {
  }

  /** KeyI twice restores the mode. */
  lemma KeyITwice(c: Control)
    ensures KeyStep(KeyStep(c, KeyI).0, KeyI).0 == c
  {
  }

  /** Escape is idempotent. */
  lemma EscapeIdempotent(c: Control)
    ensures KeyStep(KeyStep(c, Escape).0, Escape) == KeyStep(c, Escape)
    ensures KeyStep(c, Escape).0.mode == Normal
  {
  }

  /** KeyR resets the engine exactly in INSERT mode and changes no state. */
  lemma ResetOnlyInInsert(c: Control)
    ensures Reset in KeyStep(c, KeyR).1 <==> c.mode == Insert
    ensures KeyStep(c, KeyR).0 == c
  {
  }

  /** Any other key does nothing. */
  lemma OtherKeyInert(c: Control)
    ensures KeyStep(c, OtherKey) == (c, [])
  {
  }

  /** The canvas side after a resize: `Math.round(client / 10) * BLOCK_WIDTH`,
      the client size rounded to a whole number of blocks. */
  function ResizedSide(client: real): (side: real)
    ensures client - 5.0 < side <= client + 5.0
  {
    Round(client / 10.0) as real * BlockWidth
  }

  class App {
    const view: View
    var animationId: Option<nat>

    constructor (v: View)
      ensures view == v && animationId == None
    {
      view := v;
      animationId := None;
    }

    /** `run`: one animation step: the engine ticks, the view redraws, and
        `frame`, the handle the host returns for the next frame, is recorded. */
    method Run(frame: nat)
      requires view.Valid()
      modifies this, view
      ensures view.Valid()
      ensures view.effects == old(view.effects) + [Tick, Render]
      ensures animationId == Some(frame)
      ensures view.mode == old(view.mode) && view.grid == old(view.grid)
      ensures view.canvasWidth == old(view.canvasWidth) && view.canvasHeight == old(view.canvasHeight)
      ensures view.vpOx == old(view.vpOx) && view.vpOy == old(view.vpOy)
      ensures view.vpW == old(view.vpW) && view.vpH == old(view.vpH)
    {
      view.effects := view.effects + [Tick];
      var _, _, _ := view.DrawGrid();
      animationId := Some(frame);
    }

    /** `handleKeyDown`, following `KeyStep`; when Space starts the animation
        the pending frame is `frame`. */
    method HandleKeyDown(key: Key, frame: nat)
      requires view.Valid()
      modifies this, view
      ensures view.Valid()
      ensures var r := KeyStep(Control(old(view.mode), old(animationId).Some?), key);
              view.mode == r.0.mode && animationId.Some? == r.0.running
              && view.effects == old(view.effects) + r.1
      ensures key == Space && old(animationId) == None ==> animationId == Some(frame)
      ensures key != Space ==> animationId == old(animationId)
      ensures view.grid == old(view.grid)
      ensures view.canvasWidth == old(view.canvasWidth) && view.canvasHeight == old(view.canvasHeight)
      ensures view.vpOx == old(view.vpOx) && view.vpOy == old(view.vpOy)
      ensures view.vpW == old(view.vpW) && view.vpH == old(view.vpH)
    {
      match key {
        case Space =>
          view.SetMode(Normal);
          if animationId == None {
            Run(frame);
          } else {
            animationId := None;
          }
        case KeyI =>
          if view.mode != Insert {
            view.SetMode(Insert);
          } else {
            view.SetMode(Normal);
          }
        case Escape =>
          view.SetMode(Normal);
        case KeyR =>
          if view.mode == Insert {
            view.ClearUniverse();
          }
        case OtherKey =>
      }
    }

    /** The resize listener: the canvas takes the client size rounded to whole
        blocks, the viewport spans follow it, and the view redraws. A client
        under half a block wide would give an empty canvas and is excluded. */
    method Resize(clientWidth: real, clientHeight: real)
      requires view.Valid() && Round(clientWidth / 10.0) >= 1 && Round(clientHeight / 10.0) >= 1
      modifies view
      ensures view.Valid()
      ensures view.canvasWidth == ResizedSide(clientWidth) && view.canvasHeight == ResizedSide(clientHeight)
      ensures view.vpW == view.canvasWidth && view.vpH == view.canvasHeight
      ensures view.vpOx == old(view.vpOx) && view.vpOy == old(view.vpOy)
      ensures view.effects == old(view.effects) + [Render]
      ensures view.mode == old(view.mode) && view.grid == old(view.grid)
    {
      var width := Round(clientWidth / 10.0) as real * BlockWidth;
      var height := Round(clientHeight / 10.0) as real * BlockWidth;
      view.SetCanvasDimensions(width, height);
      var _, _, _ := view.DrawGrid();
    }
  }
}
