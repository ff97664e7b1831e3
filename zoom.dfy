/** The zoom controller of the viewer page: one `scale` state, starting at
    1.0, stepped down and up by 0.2 within [0.4, 2.5], and reset to 1.0. */
module Zoom {

  const MinScale: real := 0.4
  const MaxScale: real := 2.5
  const Step: real := 0.2
  const DefaultScale: real := 1.0

  predicate InRange(s: real) {
    MinScale <= s <= MaxScale
  }

  /** `Math.max(0.4, s - 0.2)`. */
  function ZoomedOut(s: real): (r: real)
    ensures r >= MinScale && r >= s - Step
    ensures r == MinScale || r == s - Step
  {
    if MinScale >= s - Step then MinScale else s - Step
  }

  /** `Math.min(2.5, s + 0.2)`. */
  function ZoomedIn(s: real): (r: real)
    ensures r <= MaxScale && r <= s + Step
    ensures r == MaxScale || r == s + Step
  {
    if MaxScale <= s + Step then MaxScale else s + Step
  }

  /** The "-" button is disabled at or below the lower bound. */
  predicate ZoomOutDisabled(s: real) {
    s <= MinScale
  }

  /** The "+" button is disabled at or above the upper bound. */
  predicate ZoomInDisabled(s: real) {
    s >= MaxScale
  }

  /** One press of a zoom button. */
  datatype Command = ZoomOut | ZoomIn | Reset

  function Apply(s: real, c: Command): real {
    match c
    case ZoomOut => ZoomedOut(s)
    case ZoomIn => ZoomedIn(s)
    case Reset => DefaultScale
  }

  /** The scale after the presses, in order. */
  function Run(s: real, commands: seq<Command>): real
    decreases |commands|
  {
    if commands == [] then s else Run(Apply(s, commands[0]), commands[1..])
  }

  /** Within the range, zooming out never increases the scale and zooming in
      never decreases it. */
  lemma StepsAreMonotone(s: real)
    requires InRange(s)
    ensures InRange(ZoomedOut(s)) && ZoomedOut(s) <= s
    ensures InRange(ZoomedIn(s)) && ZoomedIn(s) >= s
  {
  }

  /** A button is disabled exactly when pressing it would change nothing. */
  lemma DisabledIffNoEffect(s: real)
    requires InRange(s)
    ensures ZoomOutDisabled(s) <==> ZoomedOut(s) == s
    ensures ZoomInDisabled(s) <==> ZoomedIn(s) == s
  {
  }

  /** Every press keeps the scale in range. */
  lemma ApplyStaysInRange(s: real, c: Command)
    requires InRange(s)
    ensures InRange(Apply(s, c))
  {
    StepsAreMonotone(s);
  }

  /** Any sequence of presses keeps a scale in range. */
  lemma {:induction false} RunStaysInRange(s: real, commands: seq<Command>)
    requires InRange(s)
    ensures InRange(Run(s, commands))
    decreases |commands|
  {
    if commands != [] {
      ApplyStaysInRange(s, commands[0]);
      RunStaysInRange(Apply(s, commands[0]), commands[1..]);
    }
  }

  /** Starting from the initial 1.0, the scale never leaves [0.4, 2.5]. */
  lemma ScaleAlwaysInRange(commands: seq<Command>)
    ensures InRange(Run(DefaultScale, commands))
  {
    RunStaysInRange(DefaultScale, commands);
  }

  /** A reset forgets every earlier press. */
  lemma {:induction false} ResetForgets(s: real, before: seq<Command>, after: seq<Command>)
    ensures Run(s, before + [Reset] + after) == Run(DefaultScale, after)
    decreases |before|
  {
    if before == [] {
      assert before + [Reset] + after == [Reset] + after;
      assert ([Reset] + after)[1..] == after;
    } else {
      assert (before + [Reset] + after)[1..] == before[1..] + [Reset] + after;
      ResetForgets(Apply(s, before[0]), before[1..], after);
    }
  }

  /** The `scale` state of the viewer page and its three button handlers. */
  class ZoomControls {
    var scale: real

    predicate Valid()
      reads this
    {
      InRange(scale)
    }

    /** `useState(1.0)`. */
    constructor()
      ensures scale == DefaultScale && Valid()
    {
      scale := DefaultScale;
    }

    /** The "-" button: `setScale(s => Math.max(0.4, s - 0.2))`. */
    method ZoomOut()
      modifies this
      ensures scale == ZoomedOut(old(scale))
      ensures old(Valid()) ==> Valid() && scale <= old(scale)
    {
      scale := ZoomedOut(scale);
    }

    /** The "+" button: `setScale(s => Math.min(2.5, s + 0.2))`. */
    method ZoomIn()
      modifies this
      ensures scale == ZoomedIn(old(scale))
      ensures old(Valid()) ==> Valid() && scale >= old(scale)
    {
      scale := ZoomedIn(scale);
    }

    /** The "Reset" button: `setScale(1.0)`. */
    method Reset()
      modifies this
      ensures scale == DefaultScale && Valid()
    {
      scale := DefaultScale;
    }
  }
}
