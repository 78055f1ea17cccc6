/** The zoom state of a diagram view (public/js/zoom-controls.js): one zoom level changed
    by the zoom-in, zoom-out and reset buttons (or the matching control functions) and by
    `setZoom`, and two button flags that `updateZoom` derives from it. The same machine
    drives a page's own diagram and a diagram shown in an iframe. */
module ZoomControls {

  const MinZoom: real := 0.5
  const MaxZoom: real := 3.0
  const ZoomStep: real := 0.25
  const DefaultZoom: real := 1.0

  datatype Action = ZoomIn | ZoomOut | ResetZoom | SetZoom(level: real)

  /** `Math.max(MIN_ZOOM, Math.min(MAX_ZOOM, level))`. */
  function Clamp(level: real): (z: real)
    ensures MinZoom <= z <= MaxZoom
    ensures MinZoom <= level <= MaxZoom ==> z == level
    ensures level < MinZoom ==> z == MinZoom
    ensures level > MaxZoom ==> z == MaxZoom
  {
    var capped := if MaxZoom < level then MaxZoom else level;
    if MinZoom < capped then capped else MinZoom
  }

  /** The zoom level after one action: a step in or out only while the level is below
      the maximum or above the minimum, reset to the default, or a clamped level. */
  function Step(zoom: real, action: Action): real
  {
    match action
    case ZoomIn => if zoom < MaxZoom then zoom + ZoomStep else zoom
    case ZoomOut => if zoom > MinZoom then zoom - ZoomStep else zoom
    case ResetZoom => DefaultZoom
    case SetZoom(level) => Clamp(level)
  }

  /** The zoom level after a sequence of actions, the last one applied last. */
  function Run(zoom: real, actions: seq<Action>): real
  {
    if actions == [] then zoom else Step(Run(zoom, actions[..|actions| - 1]), actions[|actions| - 1])
  }

  predicate StepsOnly(actions: seq<Action>)
  {
    forall i :: 0 <= i < |actions| ==> !actions[i].SetZoom?
  }

  predicate IsInteger(x: real)
  {
    x.Floor as real == x
  }

  /** A level the buttons can reach: a multiple of the step between the bounds. */
  predicate OnGrid(zoom: real)
  {
    MinZoom <= zoom <= MaxZoom && IsInteger(zoom * 4.0)
  }

  /** Within one step of the bounds. */
  predicate NearBounds(zoom: real)
  {
    MinZoom - ZoomStep < zoom < MaxZoom + ZoomStep
  }

  lemma IntegerShift(x: real, d: int)
    requires IsInteger(x)
    ensures IsInteger(x + d as real)
  {
    assert (x + d as real).Floor == x.Floor + d;
  }

  /** The buttons and reset keep a level on the grid. */
  lemma StepKeepsGrid(zoom: real, action: Action)
    requires OnGrid(zoom) && !action.SetZoom?
    ensures OnGrid(Step(zoom, action))
  {
    match action
    case ZoomIn =>
      if zoom < MaxZoom {
        IntegerShift(zoom * 4.0, 1);
        assert (zoom + ZoomStep) * 4.0 == zoom * 4.0 + 1.0;
        var k := (zoom * 4.0).Floor;
        assert k < 12;
      }
    case ZoomOut =>
      if zoom > MinZoom {
        IntegerShift(zoom * 4.0, -1);
        assert (zoom - ZoomStep) * 4.0 == zoom * 4.0 - 1.0;
        var k := (zoom * 4.0).Floor;
        assert k > 2;
      }
    case ResetZoom =>
      assert (DefaultZoom * 4.0).Floor == 4;
  }

  /** From a grid level, any run of button presses and resets stays on the grid, so
      between 0.5 and 3.0. */
  lemma {:induction false} RunKeepsGrid(zoom: real, actions: seq<Action>)
    requires OnGrid(zoom) && StepsOnly(actions)
    ensures OnGrid(Run(zoom, actions))
  {
    if actions != [] {
      var prefix := actions[..|actions| - 1];
      assert StepsOnly(prefix) by {
        forall i | 0 <= i < |prefix| ensures !prefix[i].SetZoom? {
          assert prefix[i] == actions[i];
        }
      }
      RunKeepsGrid(zoom, prefix);
      StepKeepsGrid(Run(zoom, prefix), actions[|actions| - 1]);
    }
  }

  lemma DefaultOnGrid()
    ensures OnGrid(DefaultZoom)
  {
    assert (DefaultZoom * 4.0).Floor == 4;
  }

  /** Every action keeps the level within one step of the bounds. */
  lemma {:induction false} RunStaysNearBounds(zoom: real, actions: seq<Action>)
    requires NearBounds(zoom)
    ensures NearBounds(Run(zoom, actions))
  {
    if actions != [] {
      RunStaysNearBounds(zoom, actions[..|actions| - 1]);
    }
  }

  /** The grid bound does not survive `setZoom`: 2.9 is accepted as it is, and one
      zoom-in from there passes the maximum. */
  lemma SetZoomLeavesGrid()
    ensures Run(DefaultZoom, [SetZoom(2.9), ZoomIn]) == 3.15
    ensures !OnGrid(3.15) && 3.15 > MaxZoom
  {
    assert [SetZoom(2.9), ZoomIn][..1] == [SetZoom(2.9)];
    assert [SetZoom(2.9)][..0] == [];
  }

  /** On the grid, zoom-out undoes zoom-in below the maximum, and zoom-in undoes
      zoom-out above the minimum. */
  lemma InOutInverse(zoom: real)
    requires OnGrid(zoom)
    ensures zoom < MaxZoom ==> Step(Step(zoom, ZoomIn), ZoomOut) == zoom
    ensures zoom > MinZoom ==> Step(Step(zoom, ZoomOut), ZoomIn) == zoom
    ensures zoom == MaxZoom ==> Step(zoom, ZoomIn) == zoom
    ensures zoom == MinZoom ==> Step(zoom, ZoomOut) == zoom
  {
  }

  /** One set of zoom controls. `inIframe` tells the iframe variant, whose `updateZoom`
      reaches the frame's document first and, when that throws, leaves the buttons as
      they were. `history` records the actions so far. */
  class ZoomControl {
    var currentZoom: real
    var zoomInDisabled: bool
    var zoomOutDisabled: bool
    const inIframe: bool
    ghost var history: seq<Action>

    ghost predicate Valid()
      reads this
    {
      currentZoom == Run(DefaultZoom, history)
    }

    /** What `updateZoom` makes of the button flags. */
    predicate ButtonsMatch()
      reads this
    {
      zoomInDisabled == (currentZoom >= MaxZoom) && zoomOutDisabled == (currentZoom <= MinZoom)
    }

    /** The controls start at the default level with neither button disabled; that is
        what the first `updateZoom` computes for the default level. */
    constructor (inIframe: bool)
      ensures Valid() && history == [] && currentZoom == DefaultZoom
      ensures !zoomInDisabled && !zoomOutDisabled && ButtonsMatch()
      ensures this.inIframe == inIframe
    {
      currentZoom := DefaultZoom;
      zoomInDisabled := false;
      zoomOutDisabled := false;
      this.inIframe := inIframe;
      history := [];
    }

    /** `updateZoom`: the flags follow the level, except in an iframe whose document
        cannot be reached. */
    method UpdateZoom(frameReachable: bool)
      modifies this
      ensures currentZoom == old(currentZoom) && history == old(history)
      ensures !inIframe || frameReachable ==> ButtonsMatch()
      ensures inIframe && !frameReachable ==>
                zoomInDisabled == old(zoomInDisabled) && zoomOutDisabled == old(zoomOutDisabled)
    {
      if !inIframe || frameReachable {
        zoomInDisabled := currentZoom >= MaxZoom;
        zoomOutDisabled := currentZoom <= MinZoom;
      }
    }

    /** The iframe's `load` listener: one `updateZoom`. */
    method Load(frameReachable: bool)
      modifies this
      ensures currentZoom == old(currentZoom) && history == old(history)
      ensures !inIframe || frameReachable ==> ButtonsMatch()
      ensures inIframe && !frameReachable ==>
                zoomInDisabled == old(zoomInDisabled) && zoomOutDisabled == old(zoomOutDisabled)
    {
      UpdateZoom(frameReachable);
    }

    /** `zoomIn`: one step up below the maximum, followed by `updateZoom`; at or above
        the maximum nothing happens. */
    method ZoomIn(frameReachable: bool)
      requires Valid()
      modifies this
      ensures Valid() && history == old(history) + [Action.ZoomIn]
      ensures old(currentZoom) < MaxZoom ==> currentZoom == old(currentZoom) + ZoomStep
      ensures old(currentZoom) >= MaxZoom ==>
                currentZoom == old(currentZoom) && zoomInDisabled == old(zoomInDisabled)
                && zoomOutDisabled == old(zoomOutDisabled)
      ensures old(currentZoom) < MaxZoom && (!inIframe || frameReachable) ==> ButtonsMatch()
      ensures old(ButtonsMatch()) && (!inIframe || frameReachable) ==> ButtonsMatch()
      ensures inIframe && !frameReachable ==>
                zoomInDisabled == old(zoomInDisabled) && zoomOutDisabled == old(zoomOutDisabled)
    {
      history := history + [Action.ZoomIn];
      assert history[..|history| - 1] == old(history);
      if currentZoom < MaxZoom {
        currentZoom := currentZoom + ZoomStep;
        UpdateZoom(frameReachable);
      }
    }

    /** `zoomOut`: one step down above the minimum, followed by `updateZoom`; at or below
        the minimum nothing happens. */
    method ZoomOut(frameReachable: bool)
      requires Valid()
      modifies this
      ensures Valid() && history == old(history) + [Action.ZoomOut]
      ensures old(currentZoom) > MinZoom ==> currentZoom == old(currentZoom) - ZoomStep
      ensures old(currentZoom) <= MinZoom ==>
                currentZoom == old(currentZoom) && zoomInDisabled == old(zoomInDisabled)
                && zoomOutDisabled == old(zoomOutDisabled)
      ensures old(currentZoom) > MinZoom && (!inIframe || frameReachable) ==> ButtonsMatch()
      ensures old(ButtonsMatch()) && (!inIframe || frameReachable) ==> ButtonsMatch()
      ensures inIframe && !frameReachable ==>
                zoomInDisabled == old(zoomInDisabled) && zoomOutDisabled == old(zoomOutDisabled)
    {
      history := history + [Action.ZoomOut];
      assert history[..|history| - 1] == old(history);
      if currentZoom > MinZoom {
        currentZoom := currentZoom - ZoomStep;
        UpdateZoom(frameReachable);
      }
    }

    /** `resetZoom`: back to the default level, then `updateZoom`. */
    method ResetZoom(frameReachable: bool)
      requires Valid()
      modifies this
      ensures Valid() && history == old(history) + [Action.ResetZoom]
      ensures currentZoom == DefaultZoom
      ensures !inIframe || frameReachable ==> !zoomInDisabled && !zoomOutDisabled
      ensures inIframe && !frameReachable ==>
                zoomInDisabled == old(zoomInDisabled) && zoomOutDisabled == old(zoomOutDisabled)
    {
      history := history + [Action.ResetZoom];
      assert history[..|history| - 1] == old(history);
      currentZoom := DefaultZoom;
      UpdateZoom(frameReachable);
    }

    /** `setZoom(level)`: the level clamped into the bounds, then `updateZoom`. */
    method SetZoom(level: real, frameReachable: bool)
      requires Valid()
      modifies this
      ensures Valid() && history == old(history) + [Action.SetZoom(level)]
      ensures currentZoom == Clamp(level)
      ensures !inIframe || frameReachable ==> ButtonsMatch()
      ensures inIframe && !frameReachable ==>
                zoomInDisabled == old(zoomInDisabled) && zoomOutDisabled == old(zoomOutDisabled)
    {
      history := history + [Action.SetZoom(level)];
      assert history[..|history| - 1] == old(history);
      currentZoom := Clamp(level);
      UpdateZoom(frameReachable);
    }
  }

  /** Controls that have only seen button presses and resets sit on the grid. */
  lemma ButtonsOnlyStayOnGrid(control: ZoomControl)
    requires control.Valid() && StepsOnly(control.history)
    ensures OnGrid(control.currentZoom)
  {
    DefaultOnGrid();
    RunKeepsGrid(DefaultZoom, control.history);
  }
}
