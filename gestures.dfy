/** The per-frame gesture geometry of the air-drawing screen
    (frontend/src/components/AirSketch.tsx): which gesture one frame's hand
    landmarks show, and where the drawing cursor goes after smoothing.
    Everything here is a pure function of one frame. Coordinates are `real`:
    floating-point rounding is not modelled. */
module Gestures {
  import opened Common

  /** One normalised landmark as the hand tracker reports it (0..1 on both axes). */
  datatype Landmark = Landmark(x: real, y: real)

  /** One detected hand: the tracker always reports 21 landmarks. The ones used are
      0 wrist, 4 thumb tip, 6/7/8 index PIP/DIP/tip, 10/12 middle PIP/tip,
      14/16 ring PIP/tip, 18/20 pinky PIP/tip. */
  type Hand = h: seq<Landmark> | |h| == 21 witness seq(21, _ => Landmark(0.0, 0.0))

  /** What the tracker delivers for one video frame: the detected hands, first one used. */
  datatype Results = Results(hands: seq<Hand>)

  /** A position in canvas pixels. */
  datatype Point = Point(x: real, y: real)

  datatype Mode = PinchMode | PointMode

  datatype Gesture = PalmOpen | Draw | Idle

  /** Both the overlay canvas and the sketch canvas are declared 640 x 480. */
  const Width: real := 640.0
  const Height: real := 480.0

  /** Pinch distance threshold in pixels; the model compares its square. */
  const PinchThreshold: real := 60.0

  const SmoothingFactor: real := 0.5

  /** Every non-thumb fingertip is above (smaller y than) its PIP joint. */
  predicate AllFingersExtended(h: Hand)
  {
    && h[8].y < h[6].y
    && h[12].y < h[10].y
    && h[16].y < h[14].y
    && h[20].y < h[18].y
  }

  /** Squared pixel distance between index tip and thumb tip, scaled to the overlay canvas. */
  function PinchDistanceSquared(h: Hand): (d2: real)
    ensures d2 >= 0.0
  {
    var dx := (h[8].x - h[4].x) * Width;
    var dy := (h[8].y - h[4].y) * Height;
    dx * dx + dy * dy
  }

  /** The draw test of the current mode. */
  predicate ShouldDraw(h: Hand, mode: Mode)
  {
    match mode
    case PinchMode => PinchDistanceSquared(h) < PinchThreshold * PinchThreshold
    case PointMode => h[8].y < h[7].y && h[12].y > h[10].y
  }

  /** The frame's gesture: the open palm is tested first and wins over drawing. */
  function Classify(h: Hand, mode: Mode): Gesture
  {
    if AllFingersExtended(h) then PalmOpen
    else if ShouldDraw(h, mode) then Draw
    else Idle
  }

  /** Index fingertip in sketch-canvas pixels, before smoothing. */
  function RawPosition(h: Hand): (p: Point)
    ensures p.x == h[8].x * Width && p.y == h[8].y * Height
  {
    Point(h[8].x * Width, h[8].y * Height)
  }

  /** Exponential smoothing against the previous cursor position, if there is one. */
  function Smooth(last: Option<Point>, raw: Point): (p: Point)
    ensures last.None? ==> p == raw
    ensures last.Some? ==> p.x - last.value.x == raw.x - p.x && p.y - last.value.y == raw.y - p.y
  {
    match last
    case None => raw
    case Some(l) =>
      Point(l.x + (raw.x - l.x) * SmoothingFactor, l.y + (raw.y - l.y) * SmoothingFactor)
  }

  /** The palm test does not look at the mode. */
  lemma PalmIgnoresMode(h: Hand, m1: Mode, m2: Mode)
    ensures Classify(h, m1) == PalmOpen <==> Classify(h, m2) == PalmOpen
    ensures Classify(h, m1) == PalmOpen <==> AllFingersExtended(h)
  {
  }

  /** Comparing the squared distance with 3600 is the source's `sqrt(d2) < 60`:
      for the non-negative root d of the squared distance, pinch mode draws
      exactly when d < 60 and the palm is not open. */
  lemma PinchDrawsBelowThreshold(h: Hand, d: real)
    requires d >= 0.0 && d * d == PinchDistanceSquared(h)
    ensures Classify(h, PinchMode) == Draw <==> !AllFingersExtended(h) && d < PinchThreshold
  {
    if d < PinchThreshold {
      assert d * d < PinchThreshold * PinchThreshold by {
        assert d * d <= d * PinchThreshold;
      }
    } else {
      assert d * d >= PinchThreshold * PinchThreshold by {
        assert d * d >= PinchThreshold * d;
      }
    }
  }

  /** Point mode draws exactly when the index finger is extended and the middle finger folded. */
  lemma PointDrawsWhenIndexOnly(h: Hand)
    ensures Classify(h, PointMode) == Draw <==>
      !AllFingersExtended(h) && h[8].y < h[7].y && h[12].y > h[10].y
  {
  }

  /** Drawing in point mode needs the middle finger folded, so a point-mode draw
      frame can never be an open palm even before the palm test. */
  lemma PointDrawExcludesPalm(h: Hand)
    requires ShouldDraw(h, PointMode)
    ensures !AllFingersExtended(h) && Classify(h, PointMode) == Draw
  {
  }

  /** The smoothed point lies between the previous point and the raw one, on each axis,
      and halves the remaining gap to the raw point. */
  lemma SmoothHalvesGap(l: Point, raw: Point)
    ensures var p := Smooth(Some(l), raw);
      && (raw.x - p.x) * 2.0 == raw.x - l.x
      && (raw.y - p.y) * 2.0 == raw.y - l.y
      && (l.x <= raw.x ==> l.x <= p.x <= raw.x)
      && (raw.x <= l.x ==> raw.x <= p.x <= l.x)
      && (l.y <= raw.y ==> l.y <= p.y <= raw.y)
      && (raw.y <= l.y ==> raw.y <= p.y <= l.y)
  {
  }

  /** A hand held still is a fixed point of smoothing. */
  lemma SmoothFixedPoint(raw: Point)
    ensures Smooth(Some(raw), raw) == raw
  {
  }

  /** Two frames at (10, 10) after a cursor at the origin: (5, 5), then (7.5, 7.5). */
  lemma SmoothTwoFrames()
    ensures Smooth(Some(Point(0.0, 0.0)), Point(10.0, 10.0)) == Point(5.0, 5.0)
    ensures Smooth(Some(Point(5.0, 5.0)), Point(10.0, 10.0)) == Point(7.5, 7.5)
  {
  }
}
