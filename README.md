# SkyCanvas in Dafny

SkyCanvas lets a user draw in the air in front of a webcam and turn the sketch into an
image. This project models the core of that program and proves properties of the model:

- **Gestures** (`gestures.dfy`). These are the per-frame decisions of the air-drawing
  screen:
  - the open-palm test;
  - the pinch and point draw tests;
  - where the index fingertip lands on the 640 x 480 canvas;
  - the 0.5 exponential smoothing of the cursor.
- **StrokeEngine** (`stroke_engine.dfy`). This is the drawing state of the screen:
  - committed strokes, the stroke in progress, `isDrawing` and `hasDrawing`;
  - the last cursor position;
  - the two-second palm-hold erase timer;
  - undo, clear, the draw mode and the generate guard;
  - the keyboard shortcuts wired to them.

  Each handler has a pure transition function over `EngineState`. The class `Engine`
  holds the same state in fields, and each of its methods is proved to perform its
  transition. `Run` folds a sequence of events. The invariant `Valid` holds in every
  reachable state: no committed stroke is empty, and outside a stroke the scratch buffer
  is empty.
- **Shortcuts** (`shortcuts.dfy`). This is the keydown handler's decision: which
  callbacks run and how often `preventDefault` is called. The handler is checked
  against an independent table of the shortcuts.
- **Tutorial** (`tutorial.dfy`). This is the seven-step walkthrough:
  - Next, Previous, Complete and Skip;
  - the completion flag written to local storage;
  - the "Step n of 7" header and the progress dots.
- **Backend** (`backend.dfy`). These are the in-memory stores of the HTTP server:
  - saving, listing and deleting generations;
  - the gallery endpoints, whose list is never bound (see Findings);
  - the websocket connection list.

  Python's string order, used to sort the gallery by creation time, is modelled as
  lexicographic order. The sort is proved sorted, a permutation and stable.
- **Gallery** (`gallery.dfy`). This is the gallery dialog:
  - loading the items;
  - deleting an item, including when the request fails and when the detail view shows
    the deleted item;
  - the file name of a downloaded image, whose digits are proved to read back as the
    clock value.
- **Common** (`common.dfy`). These are `Option` and the two order-preserving list
  filters that the Python comprehensions and the TypeScript `filter` calls use.

Some values come from outside the program. Each is an input to the model:

- hand landmarks, which come from the tracker;
- the clock (`Date.now()`, `datetime.now().isoformat()`);
- record ids (`uuid4`);
- how the user answers `confirm`;
- whether a `fetch` resolves or throws.

Two behaviours of the source are kept as written:

- `clearCanvas` does not reset `isDrawing`.
- An undo during a stroke can leave `hasDrawing` false while a stroke is in progress
  (`StrokeEngine.UndoMidStrokeHidesDrawing`).

## Model

| member | source | states |
|---|---|---|
| Common.Matching | backend/app/main.py:113 | The kept records are exactly those whose key equals the value. There are never more than in the input. |
| Common.Without | backend/app/main.py:123 | The kept records are exactly those whose key differs from the value. There are never more than in the input. |
| Common.MatchingConcat | backend/app/main.py:113 | Filtering a concatenation is concatenating the filtered parts, so store order is kept. |
| Common.WithoutConcat | backend/app/main.py:123 | Deleting from a concatenation is concatenating the parts with the id deleted. |
| Common.WithoutIdempotent | backend/app/main.py:151 | Deleting the same id twice is deleting it once. |
| Common.WithoutAbsent | frontend/src/components/Gallery.tsx:48 | Deleting an id that no item has changes nothing. |
| Common.MatchingWithoutPartition | backend/app/main.py:113-123 | The records with a key and the records without it together account for every record. |
| Gestures.PinchDistanceSquared | frontend/src/components/AirSketch.tsx:154-157 | The squared thumb-to-index distance in canvas pixels is never negative. |
| Gestures.RawPosition | frontend/src/components/AirSketch.tsx:213-214 | The cursor before smoothing is the index fingertip scaled to 640 x 480. |
| Gestures.Smooth | frontend/src/components/AirSketch.tsx:216-219 | With no previous position the raw point is used. Otherwise the result is the midpoint of the previous and the raw point. |
| Gestures.PalmIgnoresMode | frontend/src/components/AirSketch.tsx:162-168 | A frame is an open palm exactly when all four fingertips are above their PIP joints, in either mode. |
| Gestures.PinchDrawsBelowThreshold | frontend/src/components/AirSketch.tsx:154-206 | Pinch mode draws exactly when the frame is not a palm and the Euclidean distance is below 60 px. |
| Gestures.PointDrawsWhenIndexOnly | frontend/src/components/AirSketch.tsx:159-207 | Point mode draws exactly when the frame is not a palm, the index tip is above its DIP joint and the middle tip is below its PIP joint. |
| Gestures.PointDrawExcludesPalm | frontend/src/components/AirSketch.tsx:160-207 | A point-mode draw pose is never an open palm, so it always draws. |
| Gestures.SmoothHalvesGap | frontend/src/components/AirSketch.tsx:216-219 | The smoothed point lies between the previous and the raw point on each axis and halves the gap. |
| Gestures.SmoothFixedPoint | frontend/src/components/AirSketch.tsx:216-219 | A hand held still keeps the cursor where it is. |
| Gestures.SmoothTwoFrames | frontend/src/components/AirSketch.tsx:41 | With factor 0.5, two frames at (10,10) from the origin give (5,5) and then (7.5,7.5). |
| StrokeEngine.Toggled | frontend/src/components/AirSketch.tsx:370 | The toggled mode always differs from the old one. |
| StrokeEngine.PalmFrameReturnsEarly | frontend/src/components/AirSketch.tsx:168-197 | A palm frame arms the timer and returns before any drawing state changes. An already pending timer is not re-armed. |
| StrokeEngine.NonPalmFrameCancelsTimer | frontend/src/components/AirSketch.tsx:198-220 | A hand frame that is not a palm cancels the timer and moves the cursor to the smoothed fingertip. |
| StrokeEngine.NoHandKeepsTimerAndCursor | frontend/src/components/AirSketch.tsx:273-281 | A frame with no hand leaves the timer and the cursor alone and ends drawing. |
| StrokeEngine.DrawFrameAppendsPoint | frontend/src/components/AirSketch.tsx:222-225 | A draw frame appends exactly the smoothed point, sets `isDrawing` and `hasDrawing`, and leaves history alone. |
| StrokeEngine.ReleaseFrameCommits | frontend/src/components/AirSketch.tsx:250-255 | A non-draw frame commits the scratch stroke exactly when a non-empty stroke is in progress. |
| StrokeEngine.UndoEmptyIsNoOp | frontend/src/components/AirSketch.tsx:311-312 | Undo with no strokes changes nothing. |
| StrokeEngine.UndoRemovesLast | frontend/src/components/AirSketch.tsx:311-325 | Undo drops exactly the last stroke and keeps the scratch stroke. `hasDrawing` becomes false exactly when no stroke is left or it was already false. |
| StrokeEngine.UndoUndoesCommit | frontend/src/components/AirSketch.tsx:250-315 | Committing a stroke and then undoing restores the history. |
| StrokeEngine.UndoMidStrokeHidesDrawing | frontend/src/components/AirSketch.tsx:276-323 | Undo during a stroke, then release, leaves a committed stroke with `hasDrawing` false, so generate is refused. |
| StrokeEngine.EraseExpiredClears | frontend/src/components/AirSketch.tsx:190-194 | The firing timer clears strokes, scratch and `hasDrawing` and disarms. A timer that is not pending does nothing. |
| StrokeEngine.BrokenPalmErasesNothing | frontend/src/components/AirSketch.tsx:198-202 | After any non-palm hand frame, a later timer event erases nothing. |
| StrokeEngine.ToggleInvolution | frontend/src/components/AirSketch.tsx:370 | Toggling twice restores the mode. |
| StrokeEngine.GenerateGuard | frontend/src/components/AirSketch.tsx:355-361 | The prompt dialog opens exactly when something was drawn. The sketch is untouched. |
| StrokeEngine.KeyDownRunsOneCallback | frontend/src/components/AirSketch.tsx:364-371 | A key press runs at most one callback: the one the handler selects, or none, in which case nothing changes. |
| StrokeEngine.UndoKeepsValid | frontend/src/components/AirSketch.tsx:311-315 | Undo keeps the invariant. That the strokes left are the old ones minus the last is `UndoRemovesLast`. |
| StrokeEngine.ReleaseKeepsValid | frontend/src/components/AirSketch.tsx:250-255 | Committing only a non-empty stroke keeps every committed stroke non-empty. |
| StrokeEngine.OnFrameKeepsValid | frontend/src/components/AirSketch.tsx:124-282 | Every tracker frame keeps the invariant. |
| StrokeEngine.PerformKeepsValid | frontend/src/components/AirSketch.tsx:364-371 | Each shortcut callback keeps the invariant. |
| StrokeEngine.PerformAllKeepsValid | frontend/src/components/AirSketch.tsx:364-371 | Every shortcut callback keeps the invariant. |
| StrokeEngine.ApplyKeepsValid | frontend/src/components/AirSketch.tsx:124-371 | Every event keeps the invariant. |
| StrokeEngine.RunKeepsValid | frontend/src/components/AirSketch.tsx:124-371 | Any sequence of events keeps the invariant. |
| StrokeEngine.ReachableIsValid | frontend/src/components/AirSketch.tsx:29-40 | From the mounted state, no committed stroke is ever empty. |
| StrokeEngine.FramesOf | frontend/src/components/AirSketch.tsx:132-134 | One single-hand frame per hand. |
| StrokeEngine.Trail | frontend/src/components/AirSketch.tsx:213-220 | One smoothed cursor position per frame. |
| StrokeEngine.RunCons | frontend/src/components/AirSketch.tsx:124 | Running one event and then the rest is running them all. |
| StrokeEngine.RunConcat | frontend/src/components/AirSketch.tsx:124 | Running two event sequences back to back is running their concatenation. |
| StrokeEngine.DrawFramesExtendStroke | frontend/src/components/AirSketch.tsx:213-225 | A run of draw frames appends the smoothed trail to the scratch stroke and leaves history and mode alone. |
| StrokeEngine.DrawThenReleaseCommitsOneStroke | frontend/src/components/AirSketch.tsx:222-281 | Drawing n frames from rest and then losing the hand commits one stroke: the n-point trail. |
| StrokeEngine.PalmHeldThenExpiredClears | frontend/src/components/AirSketch.tsx:168-197 | A palm held for any number of frames, then the timer firing, clears everything. |
| StrokeEngine.PalmFramesArm | frontend/src/components/AirSketch.tsx:190-197 | Palm frames only arm the timer, however many there are. |
| StrokeEngine.Engine.constructor | frontend/src/components/AirSketch.tsx:25-40 | The mounted state: nothing drawn, pinch mode, no dialog, no timer. |
| StrokeEngine.Engine.ReleaseStroke | frontend/src/components/AirSketch.tsx:250-255 | The fields change exactly as `Release` says. |
| StrokeEngine.Engine.StartEraseTimer | frontend/src/components/AirSketch.tsx:190-195 | The fields change exactly as `ArmEraseTimer` says. |
| StrokeEngine.Engine.FollowHand | frontend/src/components/AirSketch.tsx:198-255 | The fields change exactly as `TrackHand` says. |
| StrokeEngine.Engine.OnResults | frontend/src/components/AirSketch.tsx:124-282 | The fields change exactly as `OnFrame` says. |
| StrokeEngine.Engine.Clear | frontend/src/components/AirSketch.tsx:300-309 | The fields change exactly as `ClearCanvas` says. |
| StrokeEngine.Engine.EraseTimerFired | frontend/src/components/AirSketch.tsx:191-194 | The fields change exactly as `EraseExpired` says. |
| StrokeEngine.Engine.Undo | frontend/src/components/AirSketch.tsx:311-325 | The fields change as `UndoStroke` says, and the invariant is kept. |
| StrokeEngine.Engine.ToggleMode | frontend/src/components/AirSketch.tsx:370 | Only the mode changes, to the other one. |
| StrokeEngine.Engine.SelectMode | frontend/src/components/AirSketch.tsx:446-456 | The Point and Pinch buttons set the mode and nothing else. |
| StrokeEngine.Engine.Generate | frontend/src/components/AirSketch.tsx:355-361 | The dialog opens as `GenerateImage` says. The result says whether it opened, which is exactly when something was drawn. |
| StrokeEngine.Engine.OnKeyDown | frontend/src/components/AirSketch.tsx:364-371 | A key press runs the bound callback the shortcut handler selects, as `Apply` says. |
| StrokeEngine.Engine.RunAction | frontend/src/components/AirSketch.tsx:364-371 | Each shortcut runs the callback the component binds to it, as `Perform` says. |
| Shortcuts.Supplied | frontend/src/hooks/useKeyboardShortcuts.ts:23-53 | Only matched actions whose callback was supplied run. |
| Shortcuts.HandleKeyPress | frontend/src/hooks/useKeyboardShortcuts.ts:14-55 | A text-field target does nothing. Otherwise `preventDefault` is called once exactly when the table has a row, and that row's callback runs exactly when it is supplied. |
| Shortcuts.MatchedFollowsTable | frontend/src/hooks/useKeyboardShortcuts.ts:20-54 | The six tests match the table's row for the key and modifiers, and nothing else. |
| Shortcuts.AtMostOneAction | frontend/src/hooks/useKeyboardShortcuts.ts:20-54 | At most one `preventDefault` and at most one callback per event. |
| Shortcuts.MissingCallbackStillPrevents | frontend/src/hooks/useKeyboardShortcuts.ts:21-23 | An unbound shortcut still cancels the browser default. |
| Shortcuts.UpperCaseIgnored | frontend/src/hooks/useKeyboardShortcuts.ts:21-51 | Z, K, G and M in upper case do nothing. |
| Shortcuts.ModifierRows | frontend/src/hooks/useKeyboardShortcuts.ts:21-51 | z, k and Enter need Cmd or Ctrl. g, ? and m fire with or without them. |
| Tutorial.Dots | frontend/src/components/Tutorial.tsx:107-118 | One dot per step. |
| Tutorial.Count | frontend/src/components/Tutorial.tsx:107-118 | A count of dots never exceeds the number of dots. |
| Tutorial.TransitionsStayInRange | frontend/src/components/Tutorial.tsx:50-72 | Next, Previous and finishing keep the step among the seven steps. |
| Tutorial.NextBelowLast | frontend/src/components/Tutorial.tsx:51-52 | Below the last step, Next advances by one and does not finish. |
| Tutorial.NextOnLast | frontend/src/components/Tutorial.tsx:53-55 | On the last step, Next stores the completion flag "true", closes and keeps every other key. |
| Tutorial.PrevSteps | frontend/src/components/Tutorial.tsx:58-62 | Previous goes back one step, and does nothing on the first. |
| Tutorial.PrevUndoesNext | frontend/src/components/Tutorial.tsx:50-62 | Previous undoes Next except on the last step. |
| Tutorial.FinishIdempotent | frontend/src/components/Tutorial.tsx:64-72 | Completing or skipping twice is the same as once. |
| Tutorial.CountAppend | frontend/src/components/Tutorial.tsx:107-118 | Counting dots is additive over concatenation. |
| Tutorial.CountDotsPrefix | frontend/src/components/Tutorial.tsx:110-116 | Among the first n dots, min(step, n) are done, and one is current when step < n. |
| Tutorial.ProgressMatchesStep | frontend/src/components/Tutorial.tsx:85-118 | Exactly `step` dots are done, one is current, the header shows step+1, and its total is the number of dots. |
| Tutorial.Tutorial.constructor | frontend/src/components/Tutorial.tsx:10 | The tutorial starts at the first step. |
| Tutorial.Tutorial.HandleComplete | frontend/src/components/Tutorial.tsx:64-67 | Writes the completion flag and closes, as `Finish` says. |
| Tutorial.Tutorial.HandleSkip | frontend/src/components/Tutorial.tsx:69-72 | Does the same as Complete. |
| Tutorial.Tutorial.HandleNext | frontend/src/components/Tutorial.tsx:50-56 | Changes the fields as `Next` says and stays in range. |
| Tutorial.Tutorial.HandlePrev | frontend/src/components/Tutorial.tsx:58-62 | Changes the fields as `Prev` says and stays in range. |
| Tutorial.Tutorial.Progress | frontend/src/components/Tutorial.tsx:85-118 | Seven dots. The dot at the step is current, those before it are done and those after it are pending. One dot is current and `step` are done. The header shows step+1 of 7. |
| Backend.NewGeneration | backend/app/main.py:98-105 | The record carries the new id, the timestamp, and the body's prompt, sketch and image. The owner is "guest" when the body names none. |
| Backend.ListGenerations | backend/app/main.py:110-117 | Lists exactly the generations of the queried user ("guest" by default), with their count. |
| Backend.StrLeReflexive | backend/app/main.py:143 | Python's string order is reflexive. |
| Backend.StrLeTotal | backend/app/main.py:143 | Any two strings compare. |
| Backend.StrLeTransitive | backend/app/main.py:143 | The string order is transitive. |
| Backend.StrLeAntisymmetric | backend/app/main.py:143 | Strings that are ordered both ways are equal. |
| Backend.InsertNewestFirst | backend/app/main.py:143 | Insertion keeps every record and adds one. |
| Backend.SortNewestFirst | backend/app/main.py:143 | The sort is a permutation of its input. |
| Backend.InsertKeepsNewestFirst | backend/app/main.py:143 | Inserting into a newest-first list keeps it newest-first. |
| Backend.MatchingOne | backend/app/main.py:143 | A one-record list filtered by timestamp is itself or empty. |
| Backend.InsertIsStable | backend/app/main.py:143 | Insertion places a record ahead of the records with an equal timestamp, so it keeps its place before them, as a stable descending sort needs. |
| Backend.SortIsNewestFirst | backend/app/main.py:143 | The sorted list is newest first. |
| Backend.SortIsStable | backend/app/main.py:143 | Records with equal timestamps keep their relative order, as Python's `sorted(reverse=True)` does. |
| Backend.ListGallery | backend/app/main.py:139-145 | An unbound gallery raises NameError. Otherwise every record is listed and counted. |
| Backend.GalleryListingIsSortedAndStable | backend/app/main.py:139-145 | The listing is newest first, stable, and its count is its length. |
| Backend.SaveThenList | backend/app/main.py:95-117 | After a save, the listing gains the new record at its end when it belongs to the queried user, and is unchanged otherwise. |
| Backend.ListingKeepsOrder | backend/app/main.py:113 | The listing keeps store order. |
| Backend.DeleteGenerationProperties | backend/app/main.py:119-124 | Deletion removes exactly that id, repeating it is harmless, and an absent id changes nothing. |
| Backend.DeleteUndoesSave | backend/app/main.py:95-124 | Deleting the generation just saved under a fresh id restores the store. |
| Backend.Server.constructor | backend/app/main.py:12 | At start-up the generations list is empty and the gallery list is unbound. |
| Backend.Server.WithEmptyGallery | backend/app/main.py:12 | Start-up as intended: both lists empty. |
| Backend.Server.SaveGeneration | backend/app/main.py:95-108 | Appends the new record and answers success with its id. |
| Backend.Server.GetGenerations | backend/app/main.py:110-117 | Answers `ListGenerations` for the store. |
| Backend.Server.DeleteGeneration | backend/app/main.py:119-124 | The store loses every record with that id and the answer is "deleted". |
| Backend.Server.SaveToGallery | backend/app/main.py:125-137 | Raises NameError on an unbound list. Otherwise appends the record and answers success. |
| Backend.Server.GetGallery | backend/app/main.py:139-145 | Answers `ListGallery` for the gallery field. |
| Backend.Server.DeleteFromGallery | backend/app/main.py:147-153 | Raises NameError on an unbound list. Otherwise removes that id and answers "deleted". |
| Backend.UnboundGalleryScenario | backend/app/main.py:125-153 | As written: save, list and delete in the gallery all raise NameError. |
| Backend.EmptyGalleryScenario | backend/app/main.py:125-153 | As intended: a save is listed with count 1, and deleting it empties the gallery. |
| Backend.FirstIndex | backend/app/main.py:39 | Finds the first occurrence of a socket. |
| Backend.RemoveFirst | backend/app/main.py:39 | `list.remove` drops one occurrence: the length drops by one and the multiset loses one copy. |
| Backend.DisconnectUndoesConnect | backend/app/main.py:33-39 | Connect then disconnect restores the list. With an earlier copy of the socket, the earlier copy goes. |
| Backend.ConnectionManager.constructor | backend/app/main.py:30-31 | No connections at start-up. |
| Backend.ConnectionManager.Connect | backend/app/main.py:33-35 | Appends the socket. |
| Backend.ConnectionManager.Disconnect | backend/app/main.py:38-39 | Removes the first occurrence. An absent socket raises ValueError and leaves the list unchanged. |
| Gallery.DigitChar | frontend/src/components/Gallery.tsx:59 | A digit prints as the character with that value. |
| Gallery.Decimal | frontend/src/components/Gallery.tsx:59 | `Date.now()` prints as digits, at least one, with no leading zero. |
| Gallery.DecimalRoundTrip | frontend/src/components/Gallery.tsx:59 | The printed digits read back as the clock value. |
| Gallery.DownloadNameParts | frontend/src/components/Gallery.tsx:59 | The name is "skycanvas-", the prompt's first min(20, length) characters, "-", digits that read back as the clock, then ".png". |
| Gallery.DownloadImage | frontend/src/components/Gallery.tsx:57-62 | The link targets the image data, and its name is `DownloadName`, whose parts `DownloadNameParts` states. |
| Gallery.GalleryView.constructor | frontend/src/components/Gallery.tsx:18-20 | No items, nothing selected, not loading. |
| Gallery.GalleryView.LoadGallery | frontend/src/components/Gallery.tsx:28-39 | A parsed response replaces the items. A failure keeps them. Loading ends either way. |
| Gallery.GalleryView.Select | frontend/src/components/Gallery.tsx:102 | Opening a card or closing the detail view sets only the selection. |
| Gallery.GalleryView.DeleteItem | frontend/src/components/Gallery.tsx:41-55 | Refusing or a thrown request changes nothing. A resolved request removes every item with that id and closes the detail view exactly when it showed that id. |
| Gallery.GalleryView.DownloadSelected | frontend/src/components/Gallery.tsx:171 | Downloads the shown item's image under `DownloadName`, and does nothing when no item is shown. |
| Gallery.DeleteTwiceIsDeleteOnce | frontend/src/components/Gallery.tsx:48 | Deleting twice is deleting once, and the items keep their order. |

## Left out

- Canvas drawing and the landmark overlay are not modelled: the circles, lines, `clearRect`, redrawing after undo and the debug text. Only the state they read and write is.
- The hand tracker and the camera are not modelled: MediaPipe loading, `getUserMedia` and `Camera`. Each frame's landmarks are an input.
- The `if (!ctx || !canvas)` guards are not modelled. The model assumes both canvases are mounted, which they are once the screen renders.
- React's deferred state updates and stale closures are not modelled. `onResults` is registered at AirSketch.tsx:90, inside the effect that runs when `cameraActive` becomes true (lines 51-53 and 122). So it reads the `isDrawing`, `drawMode` and `strokes` of that render, for example a mode picked before Start Camera. The model reads the current fields instead, as the component's code evidently means.
- The invariant that no committed stroke is empty assumes the stroke is copied when `setStrokes` is called. At AirSketch.tsx:252-253 and 277-278, the updater `prev => [...prev, [...currentStroke.current]]` reads the ref and the ref is then reset to `[]`. If React ran the updater after that reset, it would commit an empty stroke. Whether it can depends on React's batching and version.
- Coordinates are real numbers, not IEEE doubles. The pinch test compares squared distance with 3600, which equals `sqrt(d2) < 60` for real numbers (`Gestures.PinchDrawsBelowThreshold`).
- Wall-clock time is not modelled. The 2000 ms timeout is an `erasePending` flag plus an `EraseTimerFired` event, and `Date.now()` is a parameter.
- The timestamps and ids that `datetime` and `uuid4` produce are inputs. The model does not prove them unique. `DeleteUndoesSave` assumes the id is fresh.
- JSON is not modelled. A missing key in a save body is `None`. Non-string values, and a `user_id` of JSON null, are not modelled.
- Python compares strings by code point, and a Dafny `char` is a Unicode scalar value, so `StrLe` is Python's order. The exception is lone surrogates: a Python `str` can hold them and a Dafny string cannot.
- `Gallery.DownloadName`: `prompt.substring(0, 20)` counts UTF-16 code units, and the model counts `char`s.
- `Gallery.GalleryView.LoadGallery` takes the parsed `items` or `None`. A body without an `items` key, which would set `items` to undefined, is not modelled. With the server as written, the GET fails with a 500 whose body is not JSON, so the items stay as they were.
- The websocket receive loop and its acknowledgements are not modelled, nor `send_personal_message`, `/`, `/health` or the mock `/api/generate`. The loop is network I/O, and only the connection list it updates is modelled.
- The generation dialog, the help dialog, the camera start, `downloadSketch`, the API client, the inference service and the user model are outside the modelled core.
- The tutorial's step texts are not modelled. Only their number, seven, matters.
- The tutorial's `onClose` is modelled as setting `open` to false. Showing the tutorial on first load (AirSketch.tsx:44-49) is not modelled.

## Findings

| source | as written | input that shows it | evidently intended | confidence | as-written member | corrected member |
|---|---|---|---|---|---|---|
| backend/app/main.py:12, 135, 143, 150-151 | Only `generations_storage` is bound at module level. `save_to_gallery` and `get_gallery` read `gallery_storage`, which is never bound, and so raise NameError. In `delete_from_gallery`, the `global` statement makes the read raise NameError too. | Any POST, GET or DELETE on /api/gallery after start-up. | A module-level `gallery_storage = []` beside `generations_storage`, so that saves are listed and deletes remove them. | not executed | Backend.UnboundGalleryScenario, Backend.Server.constructor | Backend.Server.WithEmptyGallery, Backend.EmptyGalleryScenario |
