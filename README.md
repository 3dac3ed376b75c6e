# Magic Edit: store, mask canvas and request builder

This project models the three pieces of sequential logic in a browser app
for compositing images. A user loads a background image and, optionally, a
subject image, paints red masks on them, and types an instruction. The app
then sends the images, the masks and the instruction to an image-generation
service and shows the composite it returns.

- `nullable.dfy` (module `Nullable`): `Option`, which stands for
  `string | null`, and `IsTruthy`, which is JavaScript's truth test on such
  a value (present and non-empty).
- `types.dfy` (module `EditorTypes`): the `EditorState` record and the
  paint/erase mode.
- `app_store.dfy` (module `EditorStore`): the store of the app component.
  - Each handler is a function from the old record to the new one:
    uploads, the guard and the two halves of `handleEdit`, `applyResult`,
    `undo`, `redo`, `deleteResult`, `resetAll`, and the setters wired to
    the page.
  - It proves the history invariant and the properties of each handler.
  - `Run` applies any sequence of page actions, including ones that arrive
    between the start and the end of an edit. `ReachableStatesKeepInv`
    shows that every reachable state keeps the invariant.
  - The class `Store` holds the same fields. Each of its methods updates
    them as the source does and is proved equal to its function.
- `canvas_editor.dfy` (module `Canvas`): the mask editor component.
  - The pure part covers:
    - the pan/zoom transform and its clamped scale;
    - wheel zoom about the pointer;
    - the zoom buttons and pan;
    - the map from screen to mask pixels;
    - the viewport height on image load;
    - the brush cursor size.
  - The mask canvas is a set of covered pixels. A pixel is covered by a
    shape when its centre lies in the shape.
    - A dot is a disc of radius `brushSize / 2`.
    - A move strokes a segment of width `brushSize` with round caps, i.e.
      the segment's body plus a disc at each end. A move that ends where
      the pointer already was has no body. The model then strokes the
      round cap there, as Chrome does; a canvas that follows the HTML
      standard drops the single-point subpath and strokes nothing. Within
      a stroke the mask is the same either way: a repeated position leaves
      it as it was.
    - Painting (`source-over`) adds a shape's pixels and erasing
      (`destination-out`) removes them.
  - The class `CanvasEditor` holds:
    - the component's state (`transform`, `isDrawing`, `isPanning`,
      `lastMousePos`, the container height);
    - the canvas sizes and the mask pixels;
    - the mask context's open path and composite operation;
    - the list of masks passed to `onMaskChange`.

    Its methods are the event handlers.
- `gemini_service.dfy` (module `GeminiService`): `editImage` without the
  network.
  - JavaScript's `split(',')` and the payload extraction
    `s.split(',')[1] || s` of a `data:` URL (section 3 of RFC 2397).
  - The ordered request parts and the instruction template with its two
    alternative sentences. A parser reads the user's prompt and the chosen
    sentence back from the text part.
  - The loop that finds the first inline image in the answer and turns it
    into a PNG data URL.

Behaviour of the code worth noting:

- Before the first image has loaded, the mask canvas has the HTML default
  size of 300 by 150 pixels, and pointer handlers draw on it. They are not
  no-ops. Setting the canvas size on load clears that drawing
  (`Canvas.CanvasEditor.constructor`, `Canvas.CanvasEditor.OnImageLoad`).
- Wheel zoom does not keep the content under the pointer exactly in place.
  - The pointer is measured from the viewport's border box, but the zoomed
    layer starts inside the viewport's 4-pixel border
    (components/CanvasEditor.tsx:131, 254, 266).
  - Measured from the layer, the content point under the pointer drifts by
    `inset * (1/scale - 1/newScale)`. `Canvas.ZoomAtInLayerFrame` states
    this.
  - The point is fixed in the frame the code measures from
    (`Canvas.ZoomAtKeepsPointUnderPointer`).
- The cursor size is not the brush's size on screen once the view is
  zoomed (see Findings).
- An inline image part without `data` still counts as an image. Its URL is
  `data:image/png;base64,undefined` (`GeminiService.MissingDataGivesUndefined`).

## Model

| member | source | states |
|---|---|---|
| EditorStore.LoadOriginal | App.tsx:38-46 | After a background upload the history invariant holds, whatever the state before. |
| EditorStore.LoadOriginalStartsHistory | App.tsx:38-46 | A background upload makes the history exactly `[data]` with cursor 0, shows `data`, clears the result and the background mask, leaves nothing to undo or redo, and keeps the subject, its mask, the prompt and the busy flag. |
| EditorStore.LoadSubject | App.tsx:49-53 | A subject upload preserves the history invariant. |
| EditorStore.LoadSubjectKeepsHistory | App.tsx:49-53 | A subject upload sets the subject, clears only the subject mask, and leaves the history, its cursor, the background, the result and the background mask unchanged. |
| EditorStore.BeginEdit | App.tsx:61-64 | Starting an edit preserves the invariant. |
| EditorStore.BeginEditGuard | App.tsx:61-74 | Without a truthy background or with an empty prompt, `handleEdit` changes nothing. Otherwise it only sets the busy flag, and the request it sends starts with the background's payload and ends with a text part from which the user's prompt and the subject-mask sentence choice are read back. |
| EditorStore.FinishEdit | App.tsx:76-88 | Settling an edit preserves the invariant. |
| EditorStore.FinishEditSettles | App.tsx:76-88 | After the call the store is not busy and nothing but the result and the busy flag has changed. An image in the answer becomes the result and leaves the error as it was. No image, or a failed call, leaves the result alone and reports a non-empty message: exactly the no-image message when no image came back, the service's own message for a failure that has one, and the fallback message for one that does not. |
| EditorStore.SettledError | App.tsx:76-88 | The error after the call: kept when an image came back, the no-image message when none did, and otherwise the thrown message or the fallback. `FinishEditSettles` states each of the four cases exactly. |
| EditorStore.Applied | App.tsx:91-105 | `applyResult` preserves the invariant. |
| EditorStore.ApplyResultWithoutResult | App.tsx:92 | With no truthy result, `applyResult` changes nothing. |
| EditorStore.ApplyResultCommits | App.tsx:93-105 | Applying a result makes the history its prefix up to the cursor plus the result, and puts the cursor on the result. It shows the result and clears the result, both masks and the prompt. It keeps the subject, leaves nothing to redo (redo is then a no-op), and enables undo exactly when there was a background before. |
| EditorStore.Undone | App.tsx:110-122 | `undo` preserves the invariant. |
| EditorStore.UndoStep | App.tsx:110-122 | Undo acts only when the cursor is above 0. It then moves the cursor back one entry and shows that entry. It keeps the history, clears the result and both masks, and enables redo. |
| EditorStore.Redone | App.tsx:124-136 | `redo` preserves the invariant. |
| EditorStore.RedoStep | App.tsx:124-136 | Redo acts only when the cursor is below the last entry. It then moves the cursor forward one entry and shows that entry. It keeps the history, clears the result and both masks, and enables undo. |
| EditorStore.UndoRedoRoundTrip | App.tsx:110-136 | Undo then redo, and redo then undo, return to the same cursor, history and background. |
| EditorStore.ApplyThenUndo | App.tsx:91-122 | Undo right after applying a result returns to the background the result was made from, with the result one redo away. |
| EditorStore.ResultDeleted | App.tsx:138-139 | `deleteResult` preserves the invariant. |
| EditorStore.DeleteResultOnlyClearsResult | App.tsx:138-139 | `deleteResult` clears the result and changes no other field. |
| EditorStore.Reset | App.tsx:152-167 | `resetAll` yields a state satisfying the invariant from any state. |
| EditorStore.ResetAllIsInitial | App.tsx:152-167 | `resetAll` returns exactly the first render's state, in which undo, redo and editing are all disabled. |
| EditorStore.WithMask | App.tsx:261 | The background mask callback preserves the invariant. |
| EditorStore.WithSubjectMask | App.tsx:272 | The subject mask callback preserves the invariant. |
| EditorStore.WithPrompt | App.tsx:292 | Typing the prompt preserves the invariant. |
| EditorStore.WithoutSubject | App.tsx:308 | Removing the subject preserves the invariant. |
| EditorStore.WithEditMode | App.tsx:323-326 | The paint and erase buttons preserve the invariant. |
| EditorStore.WithBrushSize | App.tsx:337 | The brush slider preserves the invariant. |
| EditorStore.Step | App.tsx:9-170 | Every action the page can take, including the start and the end of an edit, maps a state satisfying the invariant to one that satisfies it. |
| EditorStore.RunKeepsInv | App.tsx:9-170 | Any sequence of actions from a state satisfying the invariant ends in such a state. |
| EditorStore.ReachableStatesKeepInv | App.tsx:9-170 | Every state reachable from the first render has the cursor in range (-1 exactly when the history is empty) and shows the history entry under the cursor. |
| EditorStore.Store.constructor | App.tsx:9-23 | The store starts as the first render's record with no error. |
| EditorStore.Store.UploadOriginal | App.tsx:38-46 | The fields become `LoadOriginal` of the old record; the error is kept. |
| EditorStore.Store.UploadSubject | App.tsx:49-53 | The fields become `LoadSubject` of the old record. |
| EditorStore.Store.HandleEdit | App.tsx:61-89 | If the guard fails, nothing is sent and nothing changes. Otherwise the request is the one built from the current store. The outcome is a throw exactly when the call fails, carrying the same error, and is otherwise the first image of the answer. The store ends in `FinishEdit(BeginEdit(old))`, with the error cleared and then settled. |
| EditorStore.Store.Settle | App.tsx:76-88 | The fields become `FinishEdit` of the old record and the error becomes `SettledError` of the old error. |
| EditorStore.Store.ApplyResult | App.tsx:91-108 | Copying the history up to the cursor and pushing the result gives exactly `Applied` of the old record. |
| EditorStore.Store.Undo | App.tsx:110-122 | The fields become `Undone` of the old record. |
| EditorStore.Store.Redo | App.tsx:124-136 | The fields become `Redone` of the old record. |
| EditorStore.Store.DeleteResult | App.tsx:138-141 | The fields become `ResultDeleted` of the old record. |
| EditorStore.Store.ResetAll | App.tsx:152-170 | The fields become `Reset` of the old record (the first render's record) and the error is cleared. |
| EditorStore.Store.SetMask | App.tsx:261 | The fields become `WithMask` of the old record. |
| EditorStore.Store.SetSubjectMask | App.tsx:272 | The fields become `WithSubjectMask` of the old record. |
| EditorStore.Store.SetPrompt | App.tsx:292 | The fields become `WithPrompt` of the old record. |
| EditorStore.Store.RemoveSubject | App.tsx:308 | The fields become `WithoutSubject` of the old record. |
| EditorStore.Store.SetEditMode | App.tsx:323-326 | The fields become `WithEditMode` of the old record. |
| EditorStore.Store.SetBrushSize | App.tsx:337 | The fields become `WithBrushSize` of the old record. |
| Canvas.WheelScale | components/CanvasEditor.tsx:124-126 | The wheel's new scale always lies in [0.1, 20]. It is the unclamped `scale - deltaY * zoomSpeed * 0.0005` whenever that is in range, 0.1 when that falls below it and 20 when it rises above it. Scrolling down never zooms in and scrolling up never zooms out. |
| Canvas.ZoomAt | components/CanvasEditor.tsx:131-136 | The wheel's new transform about the pointer. `ZoomAtKeepsPointUnderPointer` and `ZoomAtInLayerFrame` state what it keeps. |
| Canvas.ZoomAtKeepsPointUnderPointer | components/CanvasEditor.tsx:131-138 | After `newX = mouseX - (mouseX - x) * newScale / scale` (and likewise for y), the content point `(mouse - offset) / scale` under the pointer is the same before and after. |
| Canvas.ZoomAtInLayerFrame | components/CanvasEditor.tsx:131-138 | Seen from a corner `inset` pixels inside the one the pointer is measured from, the content point under the pointer moves by exactly `inset * (1/scale - 1/newScale)`. |
| Canvas.Pan | components/CanvasEditor.tsx:193-197 | The pan update: the offset moves by the pointer's travel times `panSensitivity / 5`. `PanKeepsGrip` states its effect. |
| Canvas.PanKeepsGrip | components/CanvasEditor.tsx:193-198 | A pan keeps the scale. On each axis where the pointer moved, the content point that was under the pointer stays under it if and only if the pan sensitivity is 5. |
| Canvas.ZoomInScale | components/CanvasEditor.tsx:287 | The zoom-in button adds 0.5 unless that passes 20, where it stops; an in-range scale stays in range and never drops. |
| Canvas.ZoomOutScale | components/CanvasEditor.tsx:288 | The zoom-out button subtracts 0.5 unless that passes 0.1, where it stops; an in-range scale stays in range and never rises. |
| Canvas.ZoomButtonsInverse | components/CanvasEditor.tsx:287-288 | When zooming in does not reach the upper bound, zooming in then out restores the scale. |
| Canvas.ScreenToCanvas | components/CanvasEditor.tsx:86-94 | `getCoordinates`: the pointer's offset from the canvas rectangle's corner, scaled by mask size over on-screen size on each axis. `ScreenToCanvasCorners`, `ScreenCanvasRoundTrip` and `ScreenToCanvasThroughTransform` state its properties. |
| Canvas.ScreenToCanvasCorners | components/CanvasEditor.tsx:88-92 | The rectangle's top-left corner maps to mask pixel (0, 0) and its bottom-right corner to (width, height). |
| Canvas.ScreenCanvasRoundTrip | components/CanvasEditor.tsx:86-94 | Mapping screen to mask coordinates and back gives the same point in both directions. |
| Canvas.ScreenToCanvasThroughTransform | components/CanvasEditor.tsx:86-94 | For the mask canvas's on-screen rectangle under the transform, the mapped point is the layer-local position `(client - corner - offset) / scale` scaled to mask pixels. |
| Canvas.DisplayHeight | components/CanvasEditor.tsx:45-47 | The viewport height has the image's aspect ratio: `height * imageWidth == containerWidth * imageHeight`. |
| Canvas.CursorSizeMatchesBrush | components/CanvasEditor.tsx:115-116 | A cursor sized from the mask canvas's own rectangle is exactly the on-screen distance between two mask points `brushSize` apart. |
| Canvas.CursorSizeAsWrittenIgnoresZoom | components/CanvasEditor.tsx:109-116 | The cursor as written equals the brush's on-screen size if and only if the viewport is as wide as the zoomed layer. |
| Canvas.CursorSizeCounterexample | components/CanvasEditor.tsx:115 | At zoom 2, a 40-pixel brush on a 1000-pixel mask in a 508-pixel viewport paints 40 screen pixels wide, while the cursor as written is under 21. |
| Canvas.DiscPixels | components/CanvasEditor.tsx:166-169 | `arc` then `fill`: the pixels whose centre lies within the radius. `StrokeCoversPath` and `StrokeEffect` state what a stroke does with it. |
| Canvas.SegmentPixels | components/CanvasEditor.tsx:208-211 | `lineTo` then `stroke` with round caps: the body of the segment and a disc at each end. `SegmentToItself` states the zero-length case. |
| Canvas.SegmentToItself | components/CanvasEditor.tsx:208-211 | A move that ends on the open path's own point strokes exactly the round cap there, a disc of half the line width, and no body (as Chrome draws it; a canvas following the HTML standard strokes nothing, which within a stroke gives the same mask). |
| Canvas.ApplyFootprint | components/CanvasEditor.tsx:163 | `source-over` adds a shape's pixels and `destination-out` removes them. `StrokeIsOneFootprint` and `EraseUndoesPaint` state its properties. |
| Canvas.StrokeMask | components/CanvasEditor.tsx:163-211 | The mask after a pointer-down and a drawing move to each later point, shape by shape. `StrokeIsOneFootprint`, `StrokeEffect` and `RepeatedPositionAddsNothing` state its properties. |
| Canvas.StrokeIsOneFootprint | components/CanvasEditor.tsx:163-213 | Drawing a stroke shape by shape (a disc at pointer-down, then one segment per move) equals adding (paint) or removing (erase) the stroke's whole footprint at once. |
| Canvas.StrokeCoversPath | components/CanvasEditor.tsx:168-211 | The brush disc around every point of the path lies in the stroke's footprint, and the footprint lies on the canvas. |
| Canvas.StrokeEffect | components/CanvasEditor.tsx:163-211 | Every pixel of the stroke's footprint (the disc at the first point and the round-capped segment to each later point) is covered after painting and uncovered after erasing, and pixels outside the footprint keep their state. |
| Canvas.RepeatedPositionAddsNothing | components/CanvasEditor.tsx:187-214 | A move to the position the pointer is already at leaves the stroke's mask unchanged, in either mode. |
| Canvas.EraseUndoesPaint | components/CanvasEditor.tsx:163 | Erasing along the same path removes the painted footprint. On an empty mask, paint then erase leaves it empty. |
| Canvas.CanvasPath | components/CanvasEditor.tsx:86-94 | The mapped path has one point per pointer position, and each is that position mapped into mask pixels. |
| Canvas.CanvasEditor.constructor | components/CanvasEditor.tsx:29-33 | Identity transform, no gesture, auto height, 300 by 150 canvases, empty mask, no open path, paint, no emissions. |
| Canvas.CanvasEditor.OnImageLoad | components/CanvasEditor.tsx:40-69 | Both canvases take the image's size, which clears the mask, the open path and the composite mode. The height takes the image's aspect ratio and the view returns to the identity. |
| Canvas.CanvasEditor.Wheel | components/CanvasEditor.tsx:121-139 | Nothing changes while processing. Otherwise the transform zooms to `WheelScale` about the pointer's offset from the viewport corner, keeping the scale in range. |
| Canvas.CanvasEditor.StartInteraction | components/CanvasEditor.tsx:141-174 | Nothing changes while processing. The middle button or space starts a pan at the pointer without drawing. Anything else starts drawing in the current mode, applies the brush disc at the mapped point, and opens the path there. |
| Canvas.CanvasEditor.HandleMove | components/CanvasEditor.tsx:187-214 | A pan (ungated by processing) moves the offset by `Pan`, records the pointer and leaves the mask alone. Otherwise nothing changes unless drawing and not processing. In that case the segment from the open path's point to the mapped point is applied in the stroke's mode and the path moves on. |
| Canvas.CanvasEditor.StopInteraction | components/CanvasEditor.tsx:176-185 | Panning always ends. Exactly one mask is emitted, and drawing ends, if and only if a stroke was being drawn. |
| Canvas.CanvasEditor.ResetZoom | components/CanvasEditor.tsx:216 | The transform becomes the identity. |
| Canvas.CanvasEditor.ZoomIn | components/CanvasEditor.tsx:287 | Only the scale changes, to `ZoomInScale`, and it stays in range. |
| Canvas.CanvasEditor.ZoomOut | components/CanvasEditor.tsx:288 | Only the scale changes, to `ZoomOutScale`, and it stays in range. |
| Canvas.CanvasEditor.ClearMask | components/CanvasEditor.tsx:218-227 | The mask becomes empty and exactly one (empty) mask is emitted. |
| Canvas.CanvasEditor.MoveThrough | components/CanvasEditor.tsx:187-214 | After the pointer-down at the first position, the drawing moves to each later position turn the mask into `StrokeMask` of the mapped path, leave the path open at its last point and keep the view. |
| Canvas.CanvasEditor.DrawStroke | components/CanvasEditor.tsx:141-214 | A pointer-down, a move to each later position and a pointer-up, with no edit running, set the mask to `StrokeMask` of the old mask along the mapped path in the chosen mode. Exactly one mask, that one, is handed to `onMaskChange`, the gesture ends and the view is unchanged. |
| GeminiService.Split | services/geminiService.ts:16 | `split` yields at least one piece, none containing the separator, and joining the pieces gives back the input. |
| GeminiService.SplitJoin | services/geminiService.ts:16 | Splitting the join of separator-free pieces gives back the pieces. |
| GeminiService.StripPrefix | services/geminiService.ts:16 | `s.split(',')[1] \|\| s` returns the input unchanged when it has no comma. Otherwise it returns the input or a non-empty, comma-free piece. |
| GeminiService.StripPrefixSplitsAtFirstComma | services/geminiService.ts:16 | For `header,payload[,...]` with comma-free header and payload, the result is the payload when it is non-empty and the whole input otherwise. |
| GeminiService.StripPrefixOfPngDataUrl | services/geminiService.ts:16 | Stripping `data:image/png;base64,` plus a non-empty base64 payload gives back the payload. |
| GeminiService.PushIfGiven | services/geminiService.ts:24-33 | The conditional push appends exactly one PNG part with the stripped payload when the image is truthy and nothing otherwise, keeping the parts before it. |
| GeminiService.ImagePartsShape | services/geminiService.ts:13-55 | The image parts number 1 plus one per truthy optional image. All are PNG inline data, the background is first, and mask, subject and subject mask each appear at their position in that order with their own payload. |
| GeminiService.PromptText | services/geminiService.ts:56-72 | The fixed instruction template, with the image-4 sentence chosen by the subject mask and the prompt quoted in instruction 4. `ParsePromptText` and `SentencesDiffer` state that both are recoverable. |
| GeminiService.SentencesDiffer | services/geminiService.ts:63 | The subject-mask sentence and the auto-segmentation sentence differ, so the chosen one can be told apart. |
| GeminiService.ParsePromptText | services/geminiService.ts:56-72 | The template text yields back exactly the user's prompt, quoted verbatim, and which sentence was chosen. |
| GeminiService.RequestPartsText | services/geminiService.ts:13-74 | The request has 2 plus the number of truthy optional images parts. All but the last are the image parts, and the last is the text, which carries the prompt and the sentence chosen by whether the subject mask is truthy. |
| GeminiService.RequestParts | services/geminiService.ts:13-74 | The request's parts: the image parts, then the text part. `RequestPartsText` and `ImagePartsShape` state its shape. |
| GeminiService.BuildParts | services/geminiService.ts:13-74 | The successive pushes build exactly the request described above. |
| GeminiService.FirstImage | services/geminiService.ts:82-88 | The result is `null` if and only if no part has inline data. Otherwise it is the PNG data URL of the first part with inline data, whose `data` (optional in the SDK) renders as `undefined` when absent. |
| GeminiService.CandidateParts | services/geminiService.ts:82 | `response.candidates?.[0]?.content?.parts \|\| []`: the first candidate's parts, or none when any link is missing or there is no candidate. `ExtractImage` and `FirstImage` state what is read from them. |
| GeminiService.ExtractImage | services/geminiService.ts:82-88 | The loop over `candidates?.[0]?.content?.parts \|\| []` returns exactly `FirstImage` of those parts. |
| GeminiService.ReturnedImagePayload | services/geminiService.ts:82-88 | When part k is the first with inline data and its data is present, non-empty and base64, the returned URL is its data behind the PNG prefix, and stripping it again for a later request gives back the same data. |
| GeminiService.MissingDataGivesUndefined | services/geminiService.ts:82-88 | When the first part with inline data has no `data`, the result is `data:image/png;base64,undefined`, which is truthy and so is taken as an image. |
| GeminiService.EditImage | services/geminiService.ts:4-93 | The request is the one described above. The call throws if and only if the service call fails, with the same error, and otherwise returns the first image of the answer. |

## Left out

- The network call is not modelled: the `GoogleGenAI` client, the API key, the model name and the logging. The service's answer or failure is an input (`CallOutcome`).
- `FileReader`: the data URL of a chosen file is an input to the upload handlers.
- Tabs, the compare toggle, the download link, the zoom percentage label and all layout are presentation.
- `EditorStore.Store.HandleEdit` treats the `await` as immediate. Actions arriving between the start and the end of an edit are covered by `Run` over `EditStarted` and `EditSettled`, but there the settled outcome is not tied to the request sent at the start.
- The mask image passed to `onMaskChange` is a `MaskImage` (its size and covered pixels). PNG encoding is not modelled, and the store's mask setters take any string.
- Rasterisation is reduced to pixel-centre coverage: anti-aliasing, partial coverage and the red fill colour are not modelled.
- Canvas.CanvasEditor.HandleMove: before the first image load, the mask context still has the default butt line caps, but the model always strokes with round caps.
- Canvas.CanvasEditor.HandleMove: requires a positive brush size, because the canvas ignores a line width that is not positive.
- Canvas.CanvasEditor.StartInteraction: requires a non-negative brush size, because `arc` throws on a negative radius.
- Canvas.ScreenToCanvas: requires a rectangle of positive size; the source divides by its width and height.
- Canvas.CanvasEditor.OnImageLoad: requires an image of positive size; the source divides by its width.
- EditorStore.Applied: requires the cursor to be in range. Every reachable state satisfies this (`ReachableStatesKeepInv`).
- EditorStore.Undone: requires the cursor to be in range, for the same reason.
- EditorStore.Redone: requires the cursor to be in range, for the same reason.
- The model assumes the mask canvas and its context are always mounted while handlers run, so the branches for a missing canvas, context or viewport are not modelled.
- Touch input is not modelled separately: the first touch's position is the pointer position passed in.
- `updateCursor` is modelled only for its size formula; the cursor's position and margins are presentational.
- The window key listener is not modelled; whether space is held is an input to `StartInteraction`.
- Numbers are `real`: IEEE-754 rounding and `parseInt` of the slider value are not modelled.
- React's batching is not modelled: each handler's updates apply immediately and in order.
- `err.message` is not modelled as such: a thrown error is its message string, and an empty one stands for an error without a message.

## Findings

| source | as written | input that shows it | evidently intended | confidence | as-written member | corrected member |
|---|---|---|---|---|---|---|
| components/CanvasEditor.tsx:115-116 | The cursor diameter is `brushSize * viewportRect.width / mask.width`. The viewport's rectangle does not change with the zoom. | Zoom 2, a 1000-pixel mask in a 508-pixel viewport (500-pixel layer), brush 40. The brush paints 40 screen pixels wide, but the cursor is about 20. | Size the cursor from the mask canvas's own on-screen rectangle, the one the pointer mapping uses, so it matches the painted width at any zoom. | not executed | Canvas.CursorSizeAsWritten (Canvas.CursorSizeCounterexample, Canvas.CursorSizeAsWrittenIgnoresZoom) | Canvas.CursorSize (Canvas.CursorSizeMatchesBrush) |
