/** The stroke engine of frontend/src/components/AirSketch.tsx: the per-frame
    callback (`onResults`), the palm-hold erase timer, undo, clear, the mode
    switch and the generate guard, with the keyboard shortcuts wired to them.

    The pure transition functions over `EngineState` are the specification;
    class `Engine` performs the same steps by updating its fields in place and
    is proved to agree with them. */
module StrokeEngine {
  import opened Common
  import opened Gestures
  import Shortcuts

  type Stroke = seq<Point>

  /** The component state the engine reads and writes: the committed strokes,
      the scratch stroke, `isDrawing`, `hasDrawing`, the last cursor position,
      whether the erase timer is pending, the draw mode and the three dialogs
      the engine opens. */
  datatype EngineState = EngineState(
    strokes: seq<Stroke>,
    current: Stroke,
    isDrawing: bool,
    hasDrawing: bool,
    last: Option<Point>,
    erasePending: bool,
    mode: Mode,
    generateOpen: bool,
    galleryOpen: bool,
    helpOpen: bool)

  /** Every input the engine reacts to. A fired timer is an explicit event. */
  datatype Event =
    | Frame(results: Results)
    | EraseTimerFired
    | UndoPressed
    | ClearPressed
    | ModeSelected(mode: Mode)
    | KeyDown(key: Shortcuts.KeyEvent)

  /** The state when the component mounts. */
  function Initial(): EngineState
  {
    EngineState([], [], false, false, None, false, PinchMode, false, false, false)
  }

  /** Committed strokes are never empty, and outside a stroke the scratch buffer is empty. */
  predicate Valid(s: EngineState)
  {
    && (forall i :: 0 <= i < |s.strokes| ==> |s.strokes[i]| >= 1)
    && (!s.isDrawing ==> s.current == [])
  }

  /** Leaving the draw gesture: commit the scratch stroke if one is in progress. */
  function Release(s: EngineState): EngineState
  {
    if s.isDrawing && |s.current| > 0 then
      s.(strokes := s.strokes + [s.current], current := [], isDrawing := false)
    else
      s.(isDrawing := false)
  }

  /** An open-palm frame: arm the erase timer unless one is already pending. */
  function ArmEraseTimer(s: EngineState): EngineState
  {
    if s.erasePending then s else s.(erasePending := true)
  }

  /** A hand frame that is not an open palm: cancel the timer, move the smoothed
      cursor, then extend the stroke (draw) or release it (idle). */
  function TrackHand(s: EngineState, h: Hand, g: Gesture): EngineState
  {
    var p := Smooth(s.last, RawPosition(h));
    var moved := s.(erasePending := false, last := Some(p));
    if g == Draw then
      moved.(isDrawing := true, current := s.current + [p], hasDrawing := true)
    else
      Release(moved)
  }

  /** One tracker callback. With a hand: an open palm arms the timer and returns
      at once; any other gesture is tracked. Without a hand: release only; the
      timer and the cursor are left alone. */
  function OnFrame(s: EngineState, r: Results): EngineState
  {
    if |r.hands| == 0 then Release(s)
    else
      var g := Classify(r.hands[0], s.mode);
      if g == PalmOpen then ArmEraseTimer(s) else TrackHand(s, r.hands[0], g)
  }

  /** `clearCanvas`: empties history and scratch stroke; `isDrawing` is not touched. */
  function ClearCanvas(s: EngineState): EngineState
  {
    s.(strokes := [], current := [], hasDrawing := false)
  }

  /** The erase timer's callback; a timer that is not pending never fires. */
  function EraseExpired(s: EngineState): EngineState
  {
    if s.erasePending then ClearCanvas(s).(erasePending := false) else s
  }

  /** `undoStroke`: drop the last committed stroke; `hasDrawing` falls to false
      when no stroke is left. */
  function UndoStroke(s: EngineState): EngineState
  {
    if |s.strokes| == 0 then s
    else
      var rest := s.strokes[..|s.strokes| - 1];
      s.(strokes := rest, hasDrawing := if |rest| == 0 then false else s.hasDrawing)
  }

  function Toggled(m: Mode): (r: Mode)
    ensures r != m
  {
    match m
    case PinchMode => PointMode
    case PointMode => PinchMode
  }

  /** `generateImage`: opens the prompt dialog only when something was drawn. */
  function GenerateImage(s: EngineState): EngineState
  {
    if s.hasDrawing then s.(generateOpen := true) else s
  }

  /** The callback each shortcut is bound to in the component. */
  function Perform(s: EngineState, a: Shortcuts.Action): EngineState
  {
    match a
    case Undo => UndoStroke(s)
    case Clear => ClearCanvas(s)
    case Generate => GenerateImage(s)
    case OpenGallery => s.(galleryOpen := true)
    case OpenHelp => s.(helpOpen := true)
    case ToggleMode => s.(mode := Toggled(s.mode))
  }

  function PerformAll(s: EngineState, acts: seq<Shortcuts.Action>): EngineState
    decreases |acts|
  {
    if acts == [] then s else PerformAll(Perform(s, acts[0]), acts[1..])
  }

  /** The component supplies all six shortcut callbacks. */
  const AllActions: set<Shortcuts.Action> :=
    {Shortcuts.Undo, Shortcuts.Clear, Shortcuts.Generate,
     Shortcuts.OpenGallery, Shortcuts.OpenHelp, Shortcuts.ToggleMode}

  function Apply(s: EngineState, e: Event): EngineState
  {
    match e
    case Frame(r) => OnFrame(s, r)
    case EraseTimerFired => EraseExpired(s)
    case UndoPressed => UndoStroke(s)
    case ClearPressed => ClearCanvas(s)
    case ModeSelected(m) => s.(mode := m)
    case KeyDown(k) => PerformAll(s, Shortcuts.HandleKeyPress(k, AllActions).invoked)
  }

  function Run(s: EngineState, es: seq<Event>): EngineState
    decreases |es|
  {
    if es == [] then s else Run(Apply(s, es[0]), es[1..])
  }

  // ---------------------------------------------------------------------------
  // One frame

  /** An open-palm frame returns early: strokes, scratch stroke, `isDrawing`,
      `hasDrawing` and the cursor are untouched and the timer is pending after it;
      when the timer was already pending the frame changes nothing at all. */
  lemma PalmFrameReturnsEarly(s: EngineState, r: Results)
    requires |r.hands| > 0 && AllFingersExtended(r.hands[0])
    ensures var t := OnFrame(s, r);
      && t.erasePending
      && t.strokes == s.strokes && t.current == s.current
      && t.isDrawing == s.isDrawing && t.hasDrawing == s.hasDrawing
      && t.last == s.last && t.mode == s.mode
    ensures s.erasePending ==> OnFrame(s, r) == s
  {
  }

  /** Any frame with a hand that is not an open palm cancels the timer. */
  lemma NonPalmFrameCancelsTimer(s: EngineState, r: Results)
    requires |r.hands| > 0 && !AllFingersExtended(r.hands[0])
    ensures !OnFrame(s, r).erasePending
    ensures OnFrame(s, r).last == Some(Smooth(s.last, RawPosition(r.hands[0])))
  {
  }

  /** Losing the hand neither arms nor cancels the timer and keeps the last cursor position. */
  lemma NoHandKeepsTimerAndCursor(s: EngineState, r: Results)
    requires |r.hands| == 0
    ensures OnFrame(s, r).erasePending == s.erasePending
    ensures OnFrame(s, r).last == s.last
    ensures !OnFrame(s, r).isDrawing
  {
  }

  /** A draw frame appends exactly the smoothed point to the scratch stroke. */
  lemma DrawFrameAppendsPoint(s: EngineState, r: Results)
    requires |r.hands| > 0 && Classify(r.hands[0], s.mode) == Draw
    ensures var p := Smooth(s.last, RawPosition(r.hands[0]));
      var t := OnFrame(s, r);
      && t.current == s.current + [p]
      && t.last == Some(p)
      && t.isDrawing && t.hasDrawing
      && t.strokes == s.strokes
  {
  }

  /** A non-draw frame (idle hand or no hand) commits the scratch stroke exactly
      when a stroke is in progress and non-empty; otherwise history is unchanged. */
  lemma ReleaseFrameCommits(s: EngineState, r: Results)
    requires |r.hands| == 0 || Classify(r.hands[0], s.mode) == Idle
    ensures var t := OnFrame(s, r);
      var commits := s.isDrawing && s.current != [];
      && !t.isDrawing
      && t.strokes == (if commits then s.strokes + [s.current] else s.strokes)
      && t.current == (if commits then [] else s.current)
      && t.hasDrawing == s.hasDrawing
  {
  }

  // ---------------------------------------------------------------------------
  // Undo, clear, erase, mode, generate

  /** Undo on an empty history changes nothing. */
  lemma UndoEmptyIsNoOp(s: EngineState)
    requires s.strokes == []
    ensures UndoStroke(s) == s
  {
  }

  /** Undo takes back exactly the most recent commit and leaves the scratch stroke alone. */
  lemma UndoRemovesLast(s: EngineState, before: seq<Stroke>, last: Stroke)
    requires s.strokes == before + [last]
    ensures UndoStroke(s).strokes == before
    ensures UndoStroke(s).current == s.current
    ensures !UndoStroke(s).hasDrawing <==> before == [] || !s.hasDrawing
  {
    assert s.strokes[..|s.strokes| - 1] == before;
  }

  /** Committing a stroke and undoing restores the history. */
  lemma UndoUndoesCommit(s: EngineState, r: Results)
    requires |r.hands| == 0 || Classify(r.hands[0], s.mode) == Idle
    requires s.isDrawing && s.current != []
    ensures UndoStroke(OnFrame(s, r)).strokes == s.strokes
  {
    ReleaseFrameCommits(s, r);
    UndoRemovesLast(OnFrame(s, r), s.strokes, s.current);
  }

  /** The erase timer firing clears everything at once and disarms; a timer that
      is not pending has no effect. */
  lemma EraseExpiredClears(s: EngineState)
    ensures s.erasePending ==> var t := EraseExpired(s);
      t.strokes == [] && t.current == [] && !t.hasDrawing && !t.erasePending
    ensures !s.erasePending ==> EraseExpired(s) == s
  {
  }

  /** A palm broken by any other hand frame before the timer fires erases nothing. */
  lemma BrokenPalmErasesNothing(s: EngineState, r: Results)
    requires |r.hands| > 0 && !AllFingersExtended(r.hands[0])
    ensures EraseExpired(OnFrame(s, r)) == OnFrame(s, r)
  {
  }

  /** Undo in the middle of a stroke, with one stroke committed, clears `hasDrawing`
      although a stroke is in progress; releasing right after commits that stroke,
      yet the prompt dialog stays shut. */
  lemma UndoMidStrokeHidesDrawing(s: EngineState, r: Results)
    requires |s.strokes| == 1 && s.isDrawing && s.current != [] && !s.generateOpen
    requires |r.hands| == 0
    ensures var t := OnFrame(UndoStroke(s), r);
      && t.strokes == [s.current]
      && !t.hasDrawing
      && !GenerateImage(t).generateOpen
  {
  }

  /** Switching the mode twice restores it. */
  lemma ToggleInvolution(m: Mode)
    ensures Toggled(Toggled(m)) == m
  {
  }

  /** The prompt dialog opens exactly when something was drawn. */
  lemma GenerateGuard(s: EngineState)
    ensures GenerateImage(s).generateOpen <==> s.generateOpen || s.hasDrawing
    ensures GenerateImage(s).strokes == s.strokes && GenerateImage(s).current == s.current
  {
  }

  // ---------------------------------------------------------------------------
  // Invariant

  /** Undo keeps the invariant: the remaining strokes are a prefix of the old ones. */
  lemma UndoKeepsValid(s: EngineState)
    requires Valid(s)
    ensures Valid(UndoStroke(s))
  {
    if |s.strokes| > 0 {
      var rest := s.strokes[..|s.strokes| - 1];
      assert forall i :: 0 <= i < |rest| ==> rest[i] == s.strokes[i];
    }
  }

  lemma PerformKeepsValid(s: EngineState, a: Shortcuts.Action)
    requires Valid(s)
    ensures Valid(Perform(s, a))
  {
    if a == Shortcuts.Undo {
      UndoKeepsValid(s);
    }
  }

  lemma {:induction false} PerformAllKeepsValid(s: EngineState, acts: seq<Shortcuts.Action>)
    requires Valid(s)
    ensures Valid(PerformAll(s, acts))
    decreases |acts|
  {
    if acts != [] {
      PerformKeepsValid(s, acts[0]);
      PerformAllKeepsValid(Perform(s, acts[0]), acts[1..]);
    }
  }

  lemma ReleaseKeepsValid(s: EngineState)
    requires Valid(s)
    ensures Valid(Release(s))
  {
    if s.isDrawing && |s.current| > 0 {
      var t := s.strokes + [s.current];
      assert forall i :: 0 <= i < |s.strokes| ==> t[i] == s.strokes[i];
    }
  }

  /** Every tracker frame keeps the invariant. */
  lemma OnFrameKeepsValid(s: EngineState, r: Results)
    requires Valid(s)
    ensures Valid(OnFrame(s, r))
  {
    if |r.hands| == 0 {
      ReleaseKeepsValid(s);
    } else {
      var g := Classify(r.hands[0], s.mode);
      if g == Idle {
        var moved := s.(erasePending := false, last := Some(Smooth(s.last, RawPosition(r.hands[0]))));
        ReleaseKeepsValid(moved);
      }
    }
  }

  /** A key press runs at most one callback: the one the handler selects, if any. */
  lemma KeyDownRunsOneCallback(s: EngineState, e: Shortcuts.KeyEvent)
    ensures var invoked := Shortcuts.HandleKeyPress(e, AllActions).invoked;
      && |invoked| <= 1
      && Apply(s, KeyDown(e)) == (if |invoked| == 1 then Perform(s, invoked[0]) else s)
  {
    var invoked := Shortcuts.HandleKeyPress(e, AllActions).invoked;
    Shortcuts.AtMostOneAction(e, AllActions);
    if |invoked| == 1 {
      var t := Perform(s, invoked[0]);
      assert PerformAll(s, invoked) == PerformAll(t, invoked[1..]);
      assert invoked[1..] == [];
    } else {
      assert invoked == [];
    }
  }

  /** Every event keeps the invariant. */
  lemma ApplyKeepsValid(s: EngineState, e: Event)
    requires Valid(s)
    ensures Valid(Apply(s, e))
  {
    match e
    case Frame(r) =>
      OnFrameKeepsValid(s, r);
    case KeyDown(k) =>
      PerformAllKeepsValid(s, Shortcuts.HandleKeyPress(k, AllActions).invoked);
    case UndoPressed =>
      UndoKeepsValid(s);
    case _ =>
  }

  /** From mount onwards, whatever happens, no committed stroke is empty. */
  lemma {:induction false} RunKeepsValid(s: EngineState, es: seq<Event>)
    requires Valid(s)
    ensures Valid(Run(s, es))
    decreases |es|
  {
    if es != [] {
      ApplyKeepsValid(s, es[0]);
      RunKeepsValid(Apply(s, es[0]), es[1..]);
    }
  }

  lemma ReachableIsValid(es: seq<Event>)
    ensures Valid(Run(Initial(), es))
    ensures forall i :: 0 <= i < |Run(Initial(), es).strokes| ==> |Run(Initial(), es).strokes[i]| >= 1
  {
    RunKeepsValid(Initial(), es);
  }

  // ---------------------------------------------------------------------------
  // Several frames

  /** One frame per hand, that hand alone. */
  function FramesOf(hs: seq<Hand>): (es: seq<Event>)
    ensures |es| == |hs|
  {
    if hs == [] then [] else [Frame(Results([hs[0]]))] + FramesOf(hs[1..])
  }

  /** The smoothed cursor positions a run of hands produces from a given last position. */
  function Trail(last: Option<Point>, hs: seq<Hand>): (t: seq<Point>)
    ensures |t| == |hs|
    decreases |hs|
  {
    if hs == [] then []
    else
      var p := Smooth(last, RawPosition(hs[0]));
      [p] + Trail(Some(p), hs[1..])
  }

  lemma RunCons(s: EngineState, e: Event, es: seq<Event>)
    ensures Run(s, [e] + es) == Run(Apply(s, e), es)
  {
    assert ([e] + es)[1..] == es;
  }

  lemma {:induction false} RunConcat(s: EngineState, a: seq<Event>, b: seq<Event>)
    ensures Run(s, a + b) == Run(Run(s, a), b)
    decreases |a|
  {
    if a == [] {
      assert a + b == b;
    } else {
      assert (a + b)[0] == a[0];
      assert (a + b)[1..] == a[1..] + b;
      RunConcat(Apply(s, a[0]), a[1..], b);
    }
  }

  /** A run of draw frames appends the smoothed trail to the scratch stroke and
      leaves the history alone. */
  lemma {:induction false} DrawFramesExtendStroke(s: EngineState, hs: seq<Hand>)
    requires forall i :: 0 <= i < |hs| ==> Classify(hs[i], s.mode) == Draw
    ensures var t := Run(s, FramesOf(hs));
      && t.strokes == s.strokes
      && t.current == s.current + Trail(s.last, hs)
      && t.mode == s.mode
      && (hs != [] ==> t.isDrawing && t.hasDrawing)
      && (hs == [] ==> t == s)
    decreases |hs|
  {
    if hs != [] {
      var e := Frame(Results([hs[0]]));
      var s1 := Apply(s, e);
      DrawFrameAppendsPoint(s, Results([hs[0]]));
      assert FramesOf(hs) == [e] + FramesOf(hs[1..]);
      RunCons(s, e, FramesOf(hs[1..]));
      forall i | 0 <= i < |hs[1..]|
        ensures Classify(hs[1..][i], s1.mode) == Draw
      {
        assert hs[1..][i] == hs[i + 1];
      }
      DrawFramesExtendStroke(s1, hs[1..]);
      assert s1.current + Trail(s1.last, hs[1..]) == s.current + Trail(s.last, hs);
    }
  }

  /** Drawing n frames from rest and then losing the hand commits exactly one
      stroke of n points: the smoothed trail. */
  lemma DrawThenReleaseCommitsOneStroke(s: EngineState, hs: seq<Hand>)
    requires Valid(s) && !s.isDrawing
    requires hs != []
    requires forall i :: 0 <= i < |hs| ==> Classify(hs[i], s.mode) == Draw
    ensures var t := Run(s, FramesOf(hs) + [Frame(Results([]))]);
      && t.strokes == s.strokes + [Trail(s.last, hs)]
      && |t.strokes[|t.strokes| - 1]| == |hs|
      && t.current == [] && !t.isDrawing
  {
    RunConcat(s, FramesOf(hs), [Frame(Results([]))]);
    DrawFramesExtendStroke(s, hs);
    var mid := Run(s, FramesOf(hs));
    assert mid.current == Trail(s.last, hs);
    ReleaseFrameCommits(mid, Results([]));
  }

  /** A palm held over any number of frames and then the timer firing clears everything. */
  lemma {:induction false} PalmHeldThenExpiredClears(s: EngineState, hs: seq<Hand>)
    requires hs != []
    requires forall i :: 0 <= i < |hs| ==> AllFingersExtended(hs[i])
    ensures var t := Run(s, FramesOf(hs) + [EraseTimerFired]);
      t.strokes == [] && t.current == [] && !t.hasDrawing && !t.erasePending
  {
    RunConcat(s, FramesOf(hs), [EraseTimerFired]);
    PalmFramesArm(s, hs);
  }

  lemma {:induction false} PalmFramesArm(s: EngineState, hs: seq<Hand>)
    requires hs != []
    requires forall i :: 0 <= i < |hs| ==> AllFingersExtended(hs[i])
    ensures Run(s, FramesOf(hs)) == s.(erasePending := true)
    decreases |hs|
  {
    var s1 := OnFrame(s, Results([hs[0]]));
    assert s1 == s.(erasePending := true);
    assert FramesOf(hs)[1..] == FramesOf(hs[1..]);
    if |hs| > 1 {
      assert forall i :: 0 <= i < |hs[1..]| ==> hs[1..][i] == hs[i + 1];
      PalmFramesArm(s1, hs[1..]);
    }
  }

  // ---------------------------------------------------------------------------
  // The component, with its state held in fields and updated in place

  class Engine {
    var strokes: seq<Stroke>
    var currentStroke: Stroke
    var isDrawing: bool
    var hasDrawing: bool
    var lastPosition: Option<Point>
    var erasePending: bool
    var drawMode: Mode
    var showGenerateModal: bool
    var showGallery: bool
    var showHelp: bool

    function State(): EngineState
      reads this
    {
      EngineState(strokes, currentStroke, isDrawing, hasDrawing, lastPosition,
                  erasePending, drawMode, showGenerateModal, showGallery, showHelp)
    }

    constructor ()
      ensures State() == Initial()
    {
      strokes, currentStroke := [], [];
      isDrawing, hasDrawing := false, false;
      lastPosition := None;
      erasePending := false;
      drawMode := PinchMode;
      showGenerateModal, showGallery, showHelp := false, false, false;
    }

    method ReleaseStroke()
      modifies this
      ensures State() == Release(old(State()))
    {
      if isDrawing && |currentStroke| > 0 {
        strokes := strokes + [currentStroke];
        currentStroke := [];
      }
      isDrawing := false;
    }

    method StartEraseTimer()
      modifies this
      ensures State() == ArmEraseTimer(old(State()))
    {
      if !erasePending {
        erasePending := true;
      }
    }

    method FollowHand(h: Hand, gesture: Gesture)
      modifies this
      ensures State() == TrackHand(old(State()), h, gesture)
    {
      if erasePending {
        erasePending := false;
      }
      var p := Smooth(lastPosition, RawPosition(h));
      lastPosition := Some(p);
      if gesture == Draw {
        isDrawing := true;
        currentStroke := currentStroke + [p];
        hasDrawing := true;
      } else {
        ReleaseStroke();
      }
    }

    /** The tracker callback. */
    method OnResults(r: Results)
      modifies this
      ensures State() == OnFrame(old(State()), r)
    {
      if |r.hands| > 0 {
        var h := r.hands[0];
        var gesture := Classify(h, drawMode);
        if gesture == PalmOpen {
          StartEraseTimer();
          return;
        }
        FollowHand(h, gesture);
      } else {
        ReleaseStroke();
      }
    }

    method Clear()
      modifies this
      ensures State() == ClearCanvas(old(State()))
    {
      strokes := [];
      currentStroke := [];
      hasDrawing := false;
    }

    method EraseTimerFired()
      modifies this
      ensures State() == EraseExpired(old(State()))
    {
      if erasePending {
        Clear();
        erasePending := false;
      }
    }

    method Undo()
      modifies this
      ensures State() == UndoStroke(old(State()))
      ensures Valid(old(State())) ==> Valid(State())
    {
      ghost var s0 := State();
      if |strokes| == 0 {
        return;
      }
      var newStrokes := strokes[..|strokes| - 1];
      strokes := newStrokes;
      if |newStrokes| == 0 {
        hasDrawing := false;
      }
      if Valid(s0) {
        UndoKeepsValid(s0);
      }
    }

    method ToggleMode()
      modifies this
      ensures State() == old(State()).(mode := Toggled(old(drawMode)))
    {
      drawMode := if drawMode == PinchMode then PointMode else PinchMode;
    }

    /** The Point and Pinch buttons set the mode outright. */
    method SelectMode(m: Mode)
      modifies this
      ensures State() == Apply(old(State()), ModeSelected(m))
    {
      drawMode := m;
    }

    method Generate() returns (shown: bool)
      modifies this
      ensures State() == GenerateImage(old(State()))
      ensures shown == old(hasDrawing)
    {
      if !hasDrawing {
        return false;
      }
      showGenerateModal := true;
      return true;
    }

    /** The keydown listener with all six callbacks bound to this component. */
    /** Runs the callback the component binds to one shortcut. */
    method RunAction(a: Shortcuts.Action)
      modifies this
      ensures State() == Perform(old(State()), a)
    {
      match a {
        case Undo => Undo();
        case Clear => Clear();
        case Generate => var _ := Generate();
        case OpenGallery => showGallery := true;
        case OpenHelp => showHelp := true;
        case ToggleMode => ToggleMode();
      }
    }

    method OnKeyDown(e: Shortcuts.KeyEvent)
      modifies this
      ensures State() == Apply(old(State()), KeyDown(e))
    {
      KeyDownRunsOneCallback(State(), e);
      var invoked := Shortcuts.HandleKeyPress(e, AllActions).invoked;
      if |invoked| == 1 {
        RunAction(invoked[0]);
      }
    }
  }
}
