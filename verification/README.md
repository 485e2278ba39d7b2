# A verified model of a browser photo editor's editing engine

`script.js` is a single-page photo editor. A picture is uploaded. Its
foreground can be cut out with a segmentation mask, and it is drawn on a
canvas over an optional replacement background. The view can be rotated,
flipped, zoomed and panned. The picture is tuned with ten sliders and six
presets. It is edited with a crop tool and a brush, and a bounded
undo/redo history records checkpoints.

This project models that engine in Dafny, as pure functions over
immutable records:

- `History` (`history.dfy`): the bounded checkpoint log. It holds at most
  30 entries and an index, prunes the redo branch, evicts the oldest entry,
  and derives the undo/redo button states. Snapshots are a type parameter.
- `Adjust` (`adjust.dfy`): the ten slider values and the preset tint
  colour. It also covers the filter as an ordered list of CSS filter
  operations, the preset table, and the unblur boost.
- `View` (`view.dfy`): the view transform (scale, offset, quarter-turn
  rotation, flip) and its buttons. It defines the forward render mapping,
  the brush's hand-written inverse, an exact inverse to compare it with, and
  the scaling of pointer positions.
- `Raster` (`raster.dfy`): RGBA pixels on a grid. It covers sub-rectangle
  extraction, the confidence-mask threshold loop over the flat image data,
  and the brush disc stamp.
- `Render` (`render.dfy`): the compositor as a display list of canvas
  commands, and the variant used for the crop snapshot.
- `Tools` (`tools.dfy`): the tool buttons and the pointer state machine.
  This covers down, move, up, cancel and wheel. Events return effects
  (brush dab, crop, checkpoint) for the session to carry out.
- `Editor` (`editor.dfy`): the whole session. It has one function per user
  action, `Step`/`Run` over any sequence of actions with the session
  invariant, and a few end-to-end scenarios.

Rotation angles are exact multiples of 90 degrees, so cosine and sine come
from an exact table. All coordinates are `real`.

Three behaviours of the source are modelled as written:

- The brush uses its own inverse of the view transform. With zero pan
  offsets that inverse agrees with the exact inverse of the render transform
  when unflipped or rotated by 0 or 180 degrees (`View.BrushAgreesWithInverse`).
  A pan alone does not break this: at scale 1, unrotated and unflipped, both
  subtract the offset (`View.PannedIdentityAgrees`). But the brush subtracts the offset
  after dividing by the signed scale, so a pan makes it miss once the view is also
  zoomed, turned or flipped. A flip at a quarter turn makes it miss too, even without a pan. Three
  concrete points show such misses (`View.BrushCanMiss`).
- The first dab of a stroke, on pointer down, uses the raw canvas position
  with no inverse at all.
- Panning adds client-pixel deltas to the offset, without scaling them to
  canvas pixels.

The brush button carries two click listeners; the model runs both in
order, so a click leaves no tool selected and the brush in erase mode.
The magic eraser button also runs two listeners in order. A crop released
while there is no foreground aborts the whole pointer-up handler: the page's
`drawImage` of a missing canvas throws.

## Model

| member | source | states |
|---|---|---|
| History.Push | script.js:128-143 | Nothing changes on a canvas with a zero side. Otherwise the entries after the index are dropped, the new entry is appended, the oldest is evicted beyond 30, and the index points at the new entry. Redo is then unavailable and the log invariant is kept. |
| History.Cleared | script.js:416 | The reset log is empty, has index -1, satisfies the invariant, and enables neither button. |
| History.Undo | script.js:679-684 | Undo moves the index back by one exactly when it is above 0. The entries and the invariant are kept. |
| History.Redo | script.js:686-691 | Redo moves the index forward by one exactly when it is below the last entry. The entries and the invariant are kept. |
| History.Current | script.js:145-147 | A snapshot is restored only for an index inside the log, and it is the entry at that index. |
| History.ButtonsMatchHandlers | script.js:168-171 | The undo (redo) button is enabled exactly when its handler changes the log. |
| History.UndoThenRedo | script.js:679-691 | Redo after an enabled undo returns to the same log and the same current snapshot. |
| History.RedoThenUndo | script.js:679-691 | Undo after an enabled redo returns to the same log. |
| History.UndoTwiceThenPush | script.js:132-134 | A checkpoint after two undos discards the two undone entries for good, leaving undo enabled and redo disabled. |
| History.PushAll | script.js:128-143 | Any sequence of checkpoints keeps the log invariant: at most 30 entries, -1 <= index < length, and index -1 exactly when empty. |
| History.PushFromNewest | script.js:132-138 | A checkpoint taken at the newest entry appends to the whole log and evicts the oldest entry beyond 30. |
| History.PushKeepsPrevious | script.js:128-143 | A checkpoint lands right after the entry that was current, which stays in the log. |
| History.PushAllKeepsNewest | script.js:132-138 | Checkpoints taken from the newest entry leave exactly the newest 30 of the old entries followed by the new ones. |
| History.OverflowEvictsOldest | script.js:136-138 | 35 checkpoints on a fresh log keep the last 30 of them, with the index on the last. |
| Adjust.FilterList | script.js:180-221 | The filter starts with brightness, contrast and saturate, in that order and all non-negative. Only sepia or hue rotations follow. There is a sepia exactly when temperature > 0, and one extra operation for each non-zero temperature and tint. |
| Adjust.FilterListEntries | script.js:190-220 | The factors are max(0, 1+b/100+exp/100), max(0, 1+c/100+cla/300) and max(0, 1+s/100+vib/200). Then sepia(temp/200) for warm, hue-rotate(temp/5) for cool, and hue-rotate(tint) last. |
| Adjust.FilterIgnoresShadowsHighlights | script.js:190-192 | The shadows and highlights sliders never change the filter. |
| Adjust.BrightnessMonotone | script.js:190-203 | Raising brightness or exposure never lowers the brightness factor. |
| Adjust.NeutralIsIdentity | script.js:180-203 | All sliders at zero give the identity factors and no other operation. |
| Adjust.SetSlider | script.js:644-665 | A slider input sets its own value and leaves the other nine sliders and the tint colour as they were. |
| Adjust.SetSliderRestores | script.js:644-665 | Moving a slider back to its old value restores the adjustments exactly. |
| Adjust.ApplyPreset | script.js:865-909 | A known preset overwrites brightness, contrast, saturation and tint colour with its row. The other sliders are unchanged. An unknown name changes nothing. |
| Adjust.PresetForgetsPrior | script.js:868-908 | A known preset's result does not depend on the four values it overwrites. |
| Adjust.PresetIdempotent | script.js:865-909 | Applying a preset twice equals applying it once. |
| Adjust.BlackAndWhitePreset | script.js:903-908 | The `bw` preset gives brightness 0, contrast 20, saturation -100 and no tint colour. |
| Adjust.Unblur | script.js:559-568 | Unblur adds 10 to contrast and 20 to clarity, which raises the raw contrast factor by exactly 1/6. It changes no other slider and keeps the tint colour. |
| Adjust.UnblurRaisesContrast | script.js:559-568 | Unblur never lowers the contrast filter factor and leaves the other filter operations unchanged. |
| View.Rotate | script.js:601-605 | A quarter turn keeps the rotation in {0, 90, 180, 270} and changes it. Its cosine and sine become (-sin, cos) of the old angle. Nothing else changes. |
| View.RotateFourTimes | script.js:601-605 | Four quarter turns restore the view. |
| View.Flip | script.js:608-612 | Flip toggles the mirror flag and nothing else. |
| View.FlipInvolution | script.js:608-612 | Flipping twice restores the view. |
| View.ZoomIn | script.js:628-631 | The scale becomes scale + 0.1 when that is at most 4, and 4 otherwise. Nothing else changes, the scale never decreases from a value within range, and the zoom range is kept. |
| View.ZoomOut | script.js:633-636 | The scale becomes scale - 0.1 when that is at least 0.2, and 0.2 otherwise. Nothing else changes, the scale never increases from a value within range, and the zoom range is kept. |
| View.ZoomOutUndoesZoomIn | script.js:628-636 | Below the upper cap, zoom out undoes zoom in. |
| View.Pan | script.js:811-818 | A pan moves the offsets by exactly the pointer delta and nothing else. |
| View.TurnTable | script.js:295 | Each quarter turn of a point is the canvas rotation by the angle whose cosine and sine the table gives, and the turn back is the rotation by the negated angle. |
| View.RenderCentre | script.js:293-296 | The render transform sends the canvas centre to the centre plus the pan offset. |
| View.RenderScalesDistances | script.js:293-296 | A rendered point's squared distance from the centre moved by the offset is the scale squared times its squared distance from the centre, whatever the rotation and flip. |
| View.ScreenToImageInvertsRender | script.js:293-296 | The exact inverse undoes the render transform for every view with a positive scale. |
| View.RenderInvertsScreenToImage | script.js:293-296 | The render transform undoes the exact inverse. |
| View.RotateByTable | script.js:797-800 | The brush's rotation by the cosine and sine of the negated angle is exactly the quarter turn back. |
| View.BrushCentre | script.js:789-806 | The brush mapping sends the canvas centre to the centre minus the pan offset, for every rotation, flip and positive scale. |
| View.BrushAgreesWithInverse | script.js:789-806 | With zero offsets, the brush mapping equals the exact inverse when unflipped (any rotation) or when rotated by 0 or 180 degrees. |
| View.BrushInvertsRender | script.js:789-806 | In those same cases, brushing where a pixel is shown hits that pixel. |
| View.PannedIdentityAgrees | script.js:789-806 | At scale 1, unrotated and unflipped, the brush mapping equals the exact inverse for every pan offset. |
| View.BrushCanMiss | script.js:789-806 | Outside those cases it can miss. With zoom 2 and a 10-pixel pan, the pixel (60, 70) is drawn where the brush hits (55, 70). Flipped at 90 degrees and unzoomed, the same pixel's spot is brushed at (40, 30). Flipped at scale 1 with a 10-pixel pan, the pixel (90, 30) is drawn where the brush hits (70, 30). |
| View.PointerPos | script.js:173-178 | The pointer's offset from the element's corner is scaled by canvas size over displayed size. |
| View.PointerPosEdges | script.js:173-178 | The element's top-left and bottom-right corners map to (0, 0) and (canvas width, canvas height). |
| View.PointerPosNaturalSize | script.js:173-178 | On a canvas displayed at natural size, the position is the plain offset from the corner. |
| Raster.Extract | script.js:961-969 | The cut-out has the requested size. Each of its pixels is the source pixel at the shifted position, or transparent outside the source. |
| Raster.ExtractWhole | script.js:725-727 | Copying a whole picture onto a canvas of its size reproduces it. |
| Raster.ExtractOfExtract | script.js:961-969 | Cropping a crop equals one crop at the summed offset. |
| Raster.ClearBelowThreshold | script.js:260-263 | The loop clears byte 4i+3 for every pixel i whose confidence is below the threshold. Every other byte is unchanged. |
| Raster.StricterClearsMore | script.js:621-623 | The strict threshold 0.6 clears every alpha byte that the loose 0.35 clears. |
| Raster.MaskedIdempotent | script.js:260-263 | Thresholding twice with the same mask equals thresholding once. |
| Raster.MaskedImage | script.js:259-264 | Reading the image data out, thresholding and writing back clears the alpha of exactly the pixels below threshold. Colour and all other pixels are kept. |
| Raster.RemovedBackground | script.js:253-264 | The remasked picture keeps its size and equals the original with alpha cleared at low-confidence pixels. |
| Raster.ImageDataRoundTrip | script.js:259-264 | Reading image data out and writing it back unchanged gives the same picture. |
| Raster.Stamp | script.js:986-1006 | Pixels wholly inside the brush disc are erased (alpha 0) or painted opaque red. Pixels wholly outside are untouched, and the size is kept. |
| Render.BackgroundCmds | script.js:298-309 | At most one background command is issued, exactly when the layer is shown and a background is set. |
| Render.PictureCentred | script.js:300-305 | A background picture is drawn at its size times its zoom, centred on the canvas centre moved by its offset. |
| Render.BackgroundFrame | script.js:298-309 | The background layer depends only on the background settings and the canvas size. |
| Render.TintCmds | script.js:318-324 | The tint step is issued exactly when a preset tint colour is set. |
| Render.OverlayCmds | script.js:331-339 | The crop outline is issued exactly while a crop rectangle exists. |
| Render.RenderFinal | script.js:284-340 | Nothing is drawn without a foreground. Otherwise the render clears, enters the view transform, and ends with the crop outline drawn after the transform is left. |
| Render.RenderPositions | script.js:284-340 | Each kind of command has a fixed place in a render: the foreground in its one slot after the filter, backgrounds before it, and tints after it only when a tint colour is set. Outlines appear only during a crop. |
| Render.RenderLayers | script.js:284-340 | The background comes before the foreground, and the foreground is drawn once, right after the adjustment filter is set. The tint follows it exactly when set, and the outline appears exactly during a crop. |
| Render.CropSnapshot | script.js:934-958 | The crop snapshot has no tint step, no crop outline and no clear. |
| Render.SnapshotIsRenderWithoutTint | script.js:926-958 | The crop snapshot is the screen render of the same scene with no tint colour and no outline. |
| Render.SnapshotDropsTint | script.js:955-958 | With a tint colour set, the crop snapshot differs from what the screen shows. |
| Tools.SetActiveTool | script.js:496-497 | Selecting a tool (or none) changes only the selection. |
| Tools.Toggle | script.js:593-599 | A tool button deselects its tool when selected, and selects it otherwise (replacing any other tool). |
| Tools.ToggleTwice | script.js:593-599 | Pressing a tool button twice restores the selection when no other tool was selected. |
| Tools.ClickBrush | script.js:581-618 | The brush button's two listeners together leave no tool selected and the brush in erase mode. |
| Tools.ClickMagicEraser | script.js:571-625 | The magic eraser selects the brush in erase mode and flips the strict flag. |
| Tools.Threshold | script.js:621-623 | The strict pass uses 0.6 and the loose pass 0.35. |
| Tools.MagicEraserAlternates | script.js:621-623 | Two magic eraser clicks run one strict and one loose pass, restoring the flag. |
| Tools.CropPreview | script.js:764-772 | The preview has non-negative width and height and spans exactly from the drag's start to the pointer, whichever way it was dragged. |
| Tools.OnDown | script.js:740-759 | Crop starts a drag at the pointer and drops the preview. Brush starts a stroke and dabs at the raw canvas position. Pan starts a drag at the client position. Move or no tool does nothing. |
| Tools.OnMove | script.js:761-820 | Outside a drag nothing happens. Otherwise crop updates the preview, brush dabs at the brush mapping of the pointer, and pan or move shifts the view by the client delta. |
| Tools.CommittedCrop | script.js:823-829 | A committed crop is the preview rounded to whole pixels, with width and height of at least 5. |
| Tools.OnUp | script.js:822-847 | Release commits the rounded crop and a `crop` checkpoint exactly when the crop tool has a preview over 5 by 5. It records `brush` after a stroke. It always ends the drag and clears the crop start and preview. |
| Tools.OnCancel | script.js:850-854 | Cancel ends the drag and clears the crop start and preview, and changes nothing else. |
| Tools.OnWheel | script.js:857-862 | The wheel resizes the brush only while it is selected, and changes nothing else. Scrolling up (delta <= 0) grows it by 4. Scrolling down gives max(4, size - 4). |
| Tools.WheelRoundTrip | script.js:857-862 | One notch up then one notch down restores any brush size of at least 4. |
| Tools.Drag | script.js:811-819 | Pointer moves keep the view's rotation valid and its scale unchanged. |
| Tools.DragTelescopes | script.js:811-819 | While panning, a run of moves shifts the view by exactly the last position minus the reference position. |
| Tools.PanGesture | script.js:755-819 | A pan gesture moves the view by exactly the last pointer position minus the pressed one, and records nothing. |
| Tools.IdleDragInert | script.js:761-820 | Pointer moves outside a drag change nothing. |
| Tools.MoveToolPressInert | script.js:740-759 | From idle, a press with the move tool does not start a drag, so the moves that follow leave the view unchanged. |
| Editor.Fresh | script.js:4-50 | The page starts with no picture, an empty history, and the invariant holding. |
| Editor.Capture | script.js:130-131 | A checkpoint captures the canvas size, the foreground, and the display list that is empty exactly without a foreground. |
| Editor.Record | script.js:128-143 | A checkpoint changes only the history: its tag becomes current and redo is disabled. Nothing changes on a canvas with a zero side. |
| Editor.LoadImage | script.js:365-402 | Upload takes the picture's size and uses it as original and foreground. It resets the view and the background with its zoom and offsets, and keeps the adjustments, the tools and the layer visibility. The history restarts with one `init` entry. |
| Editor.ClearAll | script.js:409-418 | Clear drops the picture, foreground, background and history, disabling both buttons. It resets the background zoom to 1 and the offsets to 0. Everything else is kept: the canvas size, adjustments, view, tools and layer visibility. |
| Editor.RemoveBackground | script.js:245-281 | Without a picture or a mask nothing happens. Otherwise the foreground becomes the remasked original and `bg-removed` is recorded. Nothing but the foreground and the history changes. |
| Editor.RemoveBackgroundButton | script.js:551-556 | The background remover uses the strict threshold. |
| Editor.MagicEraserButton | script.js:621-625 | The magic eraser uses the flipped threshold for the foreground and always records `magic-eraser`. Nothing but the tools, the foreground and the history changes. |
| Editor.MagicEraserRecordsAfterRemoval | script.js:621-625 | When the removal succeeds, its `bg-removed` entry sits right before the `magic-eraser` entry. |
| Editor.PresetButton | script.js:865-915 | A preset changes only the adjustments, by the preset row, and records `preset-<name>`. |
| Editor.SliderInput | script.js:644-665 | A slider changes only its own adjustment and records nothing. |
| Editor.UnblurButton | script.js:559-568 | Without a picture nothing changes. With one, contrast rises by 10 and clarity by 20, and every other slider, the tint colour and the rest of the session are kept, history included. The invariant is kept. |
| Editor.ResetForgetsEdits | script.js:703-733 | Sessions that differ only in adjustments, view, background settings, foreground and history reset to the same session, history aside. |
| Editor.ResetButton | script.js:703-733 | Reset acts only with a picture. It restores neutral adjustments, the identity view, no background (zoom 1, offsets 0) and the original as foreground, then records `reset`. The tools, the layer visibility, the canvas size and the original are kept. |
| Editor.BackgroundColorInput | script.js:344-347 | The colour picker sets the background to that colour and changes nothing else. The next render fills the canvas with it exactly when the background layer is shown. |
| Editor.BackgroundPictureLoaded | script.js:349-358 | A loaded picture becomes the background at zoom 1 and offset 0, and `bg-change` is recorded. Nothing else changes. |
| Editor.BackgroundSliderInput | script.js:360-362 | Each background slider shows the value it was set to. The other two background sliders and the rest of the session are unchanged, and nothing is recorded. |
| Editor.BackgroundSliderRestores | script.js:360-362 | Setting a background slider back to the value it showed restores the session. |
| Editor.LayersButton | script.js:694-699 | The layers button flips background visibility and changes nothing else. Afterwards a background is drawn exactly when it was hidden before and one is set. |
| Editor.LayersTwice | script.js:694-699 | Pressing the layers button twice restores the session. |
| Editor.RotateButton | script.js:601-605 | Rotate changes only the view and the history, and records `rotate`. |
| Editor.FlipButton | script.js:608-612 | Flip changes only the view and the history, and records `flip`. |
| Editor.ZoomInButton | script.js:628-631 | Zoom changes only the view and records nothing. |
| Editor.ZoomOutButton | script.js:633-636 | Zoom changes only the view and records nothing. |
| Editor.UndoButton | script.js:679-684 | Undo moves the history index only. |
| Editor.RedoButton | script.js:686-691 | Redo moves the history index only. |
| Editor.ToolButton | script.js:593-599 | A crop, move or pan button deselects its tool when it is selected, and otherwise selects it. Only the selection changes. |
| Editor.BrushButton | script.js:581-618 | After the brush button no tool is selected and the brush is in erase mode. Nothing else in the tools or the session changes. |
| Editor.BrushDab | script.js:986-1006 | A dab changes only the foreground, by one disc stamp, and does nothing without a foreground. |
| Editor.CropSession | script.js:960-982 | A crop makes the cut-out of the snapshot both foreground and original, sizes the canvas to it, and resets the view. Nothing else changes. |
| Editor.CropRendersLayersAgain | script.js:926-982 | The snapshot already carries the filter and the background. After a crop the next render applies the same filter again and draws as many background commands as before. |
| Editor.PerformStep | script.js:822-835 | Each effect is a dab, a crop, or a checkpoint. A crop without a foreground aborts. |
| Editor.Perform | script.js:822-835 | A run of effects aborts exactly when it contains a crop and there is no foreground. Otherwise the invariant and the tool state are kept. |
| Editor.PerformWithoutCrop | script.js:740-820 | Effects without a crop never abort and keep the canvas size, view and original. Without checkpoints they keep the history. |
| Editor.PerformCheckpoints | script.js:832-834 | Checkpoint effects change only the history. |
| Editor.PerformKeepsSettings | script.js:822-835 | No effect changes the adjustments, the background settings, the layer visibility or the tools. |
| Editor.PointerDown | script.js:740-759 | A press updates the tool state and never records. With the brush and a foreground it stamps at the raw canvas position. Nothing but the tools and the foreground changes. |
| Editor.PointerMove | script.js:761-820 | A move updates tools and view as the machine says, never records, and stamps at the brush mapping during a brush stroke. Nothing but the tools, the view and the foreground changes. |
| Editor.PointerUp | script.js:822-847 | A committed crop without a foreground leaves the session unchanged. One with a foreground crops to the rounded preview, resets the view, and records `crop`. Otherwise the size, view and pictures are kept, and `brush` is recorded only after a stroke. The adjustments and the background always survive. |
| Editor.PointerCancel | script.js:850-854 | Cancel ends the drag and clears the preview, touching nothing else. |
| Editor.WheelTurn | script.js:857-862 | Without the brush selected nothing changes. With it, scrolling up adds 4 to the brush size and scrolling down gives max(4, size - 4). Nothing but the brush size changes. |
| Editor.Run | script.js:128-143 | Every session reached by any sequence of user actions keeps the invariant. The history has at most 30 entries, its index is inside it and is -1 exactly when empty, and the rotation is a quarter turn with scale in [0.2, 4]. |
| Editor.UploadThenBlackAndWhite | script.js:865-915 | Uploading and then choosing `bw` gives that preset's values and the entries `init` and `preset-bw`. Undo returns to `init` with redo enabled. |
| Editor.UnknownPresetStillRecords | script.js:865-915 | An unknown preset name changes no adjustment but still records a checkpoint. |
| Editor.UndoThenRedoSession | script.js:679-691 | Redo after an enabled undo gives back the same history and session. This holds because undo and redo move only the history index here; the page's restore step is not modelled (see Left out). |
| Editor.RotateFlipCrop | script.js:822-835 | Rotate, flip, then a crop dragged from (10,10) to (60,60) give a 50 by 50 picture, the identity view, and a `crop` entry. |
| Editor.CancelledCropChangesNothing | script.js:850-854 | A cancelled crop drag crops nothing, records nothing, and leaves no drag or preview. |
| Editor.BrushStrokeRecordsOnce | script.js:832-834 | A brush press records nothing, and its release records exactly the `brush` checkpoint. |

## Left out

- Segmentation (script.js:224-242, 257-258). The model loading and the segmentation call are a foreign asynchronous provider. The confidence mask is an input, and `None` stands for an unavailable model or a failed segmentation.
- Canvas pixels. Rendering yields a display list, not pixels. CSS filters, composite operations and `toDataURL` encoding are not computed. The raster a crop is cut from is an input of `Editor.PointerUp`, standing for the pixels that `Render.CropSnapshot` paints.
- Editor.UndoButton: moves the index but does not restore the entry onto the canvas. The page decodes the stored PNG asynchronously, then resizes the canvas and replaces the foreground with the flattened picture (script.js:145-166). Pixels of a recorded display list are not modelled.
- Editor.RedoButton: the same restoring step is left out, for the same reason.
- Editor.UndoThenRedoSession: holds only because restoring is left out. In the page, undo and then redo resize the canvas to the stored picture and replace the foreground with the flattened picture, background and tint included (script.js:149-160). The session is not the same afterwards.
- Editor.PointerUp: records the crop's intended end state. In the page, the `crop` checkpoint is taken before the asynchronous resize (script.js:830 vs 972-982), so it captures the old canvas with the crop outline still on it.
- Editor.Step: accepts a crop snapshot of any size. The page's snapshot canvas always has the canvas's size (script.js:929-930). Cutting out handles any size, so no property depends on it.
- Editor.LoadImage: the `init` checkpoint records the session's render, with any carried-over adjustments. The page captures the bare picture it drew itself (script.js:380-381).
- Editor.RemoveBackground: runs as one atomic step, as does Editor.MagicEraserButton. The page awaits the segmentation inside these handlers (script.js:247, 257, 623). Meanwhile other events can run (upload, crop, brush, clear), and the stale result then overwrites the foreground, resizes the canvas (script.js:268-271) and records checkpoints. Interleavings of events are not modelled.
- Failure paths are left out: a failed upload decode, `pushHistory`'s catch of a failing `toDataURL`, and rejected `createImageBitmap` promises.
- View.PointerPos: requires a canvas element with non-zero displayed size. A zero size makes the page compute Infinity or NaN.
- Raster.Stamp: `Raster.StampOutcome` leaves the anti-aliased rim of the disc unspecified. `Raster.Stamp` chooses centre sampling, which is one outcome it allows.
- Floating point. Numbers are exact reals, and cosine and sine of quarter turns are exact. JavaScript's `Math.cos(Math.PI / 2)` is about 6e-17, not 0, and `+ 0.1` steps round. `Math.round` is modelled as floor(x + 0.5). The filter string's number formatting is not modelled; the filter is a list of operations.
- Background pictures are modelled by their size only; their pixels are never read.
- DOM and UI are left out: cursors, active-tool highlighting, category tabs, the before/after slider (script.js:431-488), download, alerts, the loading indicator, and the slider elements' displayed values.
- Editor.ToolButton: requires a tool other than the brush, because the brush has its own button (`Editor.BrushButton`).
