/**
  The editor session: every piece of state the page keeps between events,
  and one function per button, slider, upload and pointer event. Each event
  is the composition of the pure pieces in the other modules, plus the
  history checkpoint the page records after it.
 */
module Editor {
  import opened Base
  import opened History
  import opened Adjust
  import opened View
  import opened Raster
  import opened Render
  import opened Tools

  /**
    What a checkpoint records: the canvas size and what was painted on it
    (the display list, and the foreground raster it draws).
   */
  datatype Frame = Frame(width: nat, height: nat, display: seq<Cmd>, foreground: Option<Image>)

  datatype Session = Session(
    width: nat, height: nat,
    original: Option<Image>, foreground: Option<Image>,
    background: Background, bgScale: real, bgOffsetX: real, bgOffsetY: real, showBackground: bool,
    adj: Adjustments, view: ViewTransform, tools: ToolState, history: Log<Frame>)

  predicate Sized(img: Option<Image>, width: nat, height: nat) {
    img.Some? ==> WellFormed(img.value) && img.value.width == width && img.value.height == height
  }

  /** What every reachable session keeps. */
  predicate Inv(e: Session) {
    && Valid(e.history)
    && ValidView(e.view)
    && Sized(e.original, e.width, e.height)
    && Sized(e.foreground, e.width, e.height)
    && (e.original.None? ==> e.foreground.None?)
  }

  /** The page before any upload, on a canvas of the given size. */
  function Fresh(width: nat, height: nat): (e: Session)
    ensures Inv(e)
    ensures e.original.None? && e.foreground.None? && |e.history.entries| == 0
  {
    Session(width, height, None, None, NoBackground, 1.0, 0.0, 0.0, true, Neutral, Identity, Tools.Initial, Cleared())
  }

  function SceneOf(e: Session): (sc: Scene)
    ensures sc.width == e.width && sc.height == e.height && sc.hasForeground == e.foreground.Some?
    ensures sc.adj == e.adj && sc.view == e.view && sc.cropRect == e.tools.cropRect
  {
    Scene(e.width, e.height, e.foreground.Some?, e.background, e.bgScale, e.bgOffsetX, e.bgOffsetY,
          e.showBackground, e.adj, e.view, e.tools.cropRect)
  }

  /** What the canvas shows once the session is rendered. */
  function Capture(e: Session): (f: Frame)
    ensures f.width == e.width && f.height == e.height && f.foreground == e.foreground
    ensures e.foreground.None? <==> f.display == []
  {
    Frame(e.width, e.height, RenderFinal(SceneOf(e)), e.foreground)
  }

  /** A history checkpoint of the rendered session under the given tag. */
  function Record(e: Session, tag: string): (r: Session)
    requires Inv(e)
    ensures Inv(r)
    ensures r == e.(history := r.history)
    ensures e.width > 0 && e.height > 0 ==> CurrentTag(r) == Some(tag) && !CanRedo(r.history)
    ensures e.width == 0 || e.height == 0 ==> r == e
  {
    e.(history := Push(e.history, e.width, e.height, Capture(e), tag))
  }

  /** The tag of the current history entry, if any. */
  function CurrentTag(e: Session): (t: Option<string>)
    ensures t.Some? <==> 0 <= e.history.index < |e.history.entries|
    ensures t.Some? ==> t.value == e.history.entries[e.history.index].tag
  {
    if 0 <= e.history.index < |e.history.entries| then Some(e.history.entries[e.history.index].tag) else None
  }

  // ---------------------------------------------------------------- images

  /**
    Loading a picture: the canvas takes its size, the foreground starts as a
    copy of it, the view and the replacement background are reset, and the
    history restarts from a single checkpoint. Adjustments and tool state
    carry over from before.
   */
  function LoadImage(e: Session, img: Image): (r: Session)
    requires Inv(e) && WellFormed(img)
    ensures Inv(r)
    ensures r.width == img.width && r.height == img.height
    ensures r.original == Some(img) && r.foreground == Some(img)
    ensures r.view == Identity && r.background == NoBackground && r.bgScale == 1.0
    ensures r.adj == e.adj && r.tools == e.tools && r.showBackground == e.showBackground
    ensures r.bgOffsetX == 0.0 && r.bgOffsetY == 0.0
    ensures img.width > 0 && img.height > 0 ==> r.history.entries == [Entry(Capture(r), "init")] && r.history.index == 0
    ensures img.width == 0 || img.height == 0 ==> r.history == Cleared()
  {
    var loaded := e.(width := img.width, height := img.height, original := Some(img), foreground := Some(img),
                     view := Identity, background := NoBackground, bgScale := 1.0, bgOffsetX := 0.0, bgOffsetY := 0.0,
                     history := Cleared());
    Record(loaded, "init")
  }

  /** The clear button: forget the picture, its foreground, the background and the history. */
  function ClearAll(e: Session): (r: Session)
    requires Inv(e)
    ensures Inv(r)
    ensures r.original.None? && r.foreground.None? && r.background == NoBackground
    ensures r.history == Cleared() && !CanUndo(r.history) && !CanRedo(r.history)
    ensures r.bgScale == 1.0 && r.bgOffsetX == 0.0 && r.bgOffsetY == 0.0
    ensures r == e.(original := None, foreground := None, background := NoBackground,
                    bgScale := 1.0, bgOffsetX := 0.0, bgOffsetY := 0.0, history := r.history)
    ensures r.width == e.width && r.height == e.height && r.adj == e.adj && r.view == e.view
  {
    e.(original := None, foreground := None, background := NoBackground,
       bgScale := 1.0, bgOffsetX := 0.0, bgOffsetY := 0.0, history := Cleared())
  }

  /**
    Background removal with a confidence mask from the segmentation provider
    (`None` when the provider is unavailable or fails): the foreground becomes
    the original picture with the alpha of every low-confidence pixel cleared,
    and a checkpoint is recorded. Without a picture nothing happens.
   */
  function RemoveBackground(e: Session, confidence: Option<seq<real>>, threshold: real): (r: Session)
    requires Inv(e)
    ensures Inv(r)
    ensures e.original.None? || confidence.None? ==> r == e
    ensures r == e.(foreground := r.foreground, history := r.history)
    ensures e.original.Some? && confidence.Some? ==>
              && r.original == e.original && r.foreground.Some?
              && r.width == e.width && r.height == e.height
              && CurrentTag(r) == (if e.width > 0 && e.height > 0 then Some("bg-removed") else CurrentTag(e))
              && r.foreground == Some(RemovedBackground(e.original.value, confidence.value, threshold))
  {
    if e.original.None? || confidence.None? then e
    else
      var orig := e.original.value;
      var masked := e.(foreground := Some(RemovedBackground(orig, confidence.value, threshold)),
                       width := orig.width, height := orig.height);
      Record(masked, "bg-removed")
  }

  /** The background remover button: the strict threshold. */
  function RemoveBackgroundButton(e: Session, confidence: Option<seq<real>>): (r: Session)
    requires Inv(e)
    ensures Inv(r)
    ensures r == RemoveBackground(e, confidence, StrictThreshold)
  {
    RemoveBackground(e, confidence, StrictThreshold)
  }

  /**
    The magic eraser button: select the erasing brush, flip between the
    strict and loose threshold, remove the background with it, and record a
    checkpoint in every case.
   */
  function MagicEraserButton(e: Session, confidence: Option<seq<real>>): (r: Session)
    requires Inv(e)
    ensures Inv(r)
    ensures r.tools == ClickMagicEraser(e.tools)
    ensures r == e.(tools := r.tools, foreground := r.foreground, history := r.history)
    ensures e.width > 0 && e.height > 0 ==> CurrentTag(r) == Some("magic-eraser")
    ensures e.original.Some? && confidence.Some? ==>
              r.foreground == RemoveBackground(e, confidence, Threshold(!e.tools.magicStrict)).foreground
  {
    var clicked := e.(tools := ClickMagicEraser(e.tools));
    var removed := RemoveBackground(clicked, confidence, Threshold(clicked.tools.magicStrict));
    Record(removed, "magic-eraser")
  }

  /** When the removal succeeds, its `bg-removed` checkpoint sits right before `magic-eraser`. */
  lemma MagicEraserRecordsAfterRemoval(e: Session, confidence: Option<seq<real>>)
    requires Inv(e) && e.original.Some? && confidence.Some? && e.width > 0 && e.height > 0
    ensures var r := MagicEraserButton(e, confidence);
            && CurrentTag(r) == Some("magic-eraser")
            && r.history.index >= 1 && r.history.entries[r.history.index - 1].tag == "bg-removed"
  {
    var clicked := e.(tools := ClickMagicEraser(e.tools));
    var removed := RemoveBackground(clicked, confidence, Threshold(clicked.tools.magicStrict));
    RecordAfter(removed, "bg-removed", "magic-eraser");
  }

  /** A checkpoint lands right after the current one. */
  lemma RecordAfter(e: Session, before: string, tag: string)
    requires Inv(e) && e.width > 0 && e.height > 0 && CurrentTag(e) == Some(before)
    ensures var r := Record(e, tag);
            && CurrentTag(r) == Some(tag)
            && r.history.index >= 1 && r.history.entries[r.history.index - 1].tag == before
  {
    PushKeepsPrevious(e.history, e.width, e.height, Capture(e), tag);
  }

  // ---------------------------------------------------------- adjustments

  /** A preset button: overwrite the preset's adjustments and record `preset-<name>`. */
  function PresetButton(e: Session, name: string): (r: Session)
    requires Inv(e)
    ensures Inv(r)
    ensures r.adj == ApplyPreset(e.adj, name)
    ensures e.width > 0 && e.height > 0 ==> CurrentTag(r) == Some("preset-" + name)
    ensures r == e.(adj := r.adj, history := r.history)
  {
    Record(e.(adj := ApplyPreset(e.adj, name)), "preset-" + name)
  }

  /** A slider moved: only its adjustment changes; no checkpoint. */
  function SliderInput(e: Session, s: Slider, value: real): (r: Session)
    ensures r == e.(adj := r.adj)
    ensures Setting(r.adj, s) == value
    ensures forall t :: t != s ==> Setting(r.adj, t) == Setting(e.adj, t)
  {
    e.(adj := SetSlider(e.adj, s, value))
  }

  /** The unblur button: a contrast and clarity boost when there is a picture; no checkpoint. */
  function UnblurButton(e: Session): (r: Session)
    ensures r == e.(adj := r.adj)
    ensures e.original.None? ==> r == e
    ensures e.original.Some? ==>
              && r.adj.contrast == e.adj.contrast + 10.0 && r.adj.clarity == e.adj.clarity + 20.0
              && (forall t :: t != ContrastSlider && t != ClaritySlider ==> Setting(r.adj, t) == Setting(e.adj, t))
              && r.adj.tintColor == e.adj.tintColor
    ensures Inv(e) ==> Inv(r)
  {
    if e.original.None? then e else e.(adj := Unblur(e.adj))
  }

  /**
    The reset button: neutral adjustments, identity view, no replacement
    background, the foreground restored from the original picture, and a
    checkpoint. Without a picture nothing happens.
   */
  function ResetButton(e: Session): (r: Session)
    requires Inv(e)
    ensures Inv(r)
    ensures e.original.None? ==> r == e
    ensures e.original.Some? ==>
              && r.adj == Neutral && r.view == Identity && r.background == NoBackground
              && r.foreground == e.original && r.original == e.original
              && (e.width > 0 && e.height > 0 ==> CurrentTag(r) == Some("reset"))
    ensures e.original.Some? ==>
              r == e.(view := Identity, background := NoBackground, bgScale := 1.0, bgOffsetX := 0.0, bgOffsetY := 0.0,
                      adj := Neutral, foreground := e.original, history := r.history)
  {
    if e.original.None? then e
    else
      var orig := e.original.value;
      var restored := Extract(orig, 0, 0, e.width, e.height);
      ExtractWhole(orig);
      Record(e.(view := Identity, background := NoBackground, bgScale := 1.0, bgOffsetX := 0.0, bgOffsetY := 0.0,
                adj := Neutral, foreground := Some(restored)), "reset")
  }

  /**
    Reset forgets every adjustment, view, background and foreground edit:
    two sessions with the same picture, canvas, tools and layer visibility
    reset to the same session, apart from the history.
   */
  lemma ResetForgetsEdits(e: Session, edited: Session)
    requires Inv(e) && Inv(edited) && e.original.Some?
    requires edited == e.(adj := edited.adj, view := edited.view, background := edited.background,
                          bgScale := edited.bgScale, bgOffsetX := edited.bgOffsetX, bgOffsetY := edited.bgOffsetY,
                          foreground := edited.foreground, history := edited.history)
    ensures ResetButton(edited) == ResetButton(e).(history := ResetButton(edited).history)
  {
    var r, s := ResetButton(e), ResetButton(edited);
    assert r == e.(view := Identity, background := NoBackground, bgScale := 1.0, bgOffsetX := 0.0, bgOffsetY := 0.0,
                   adj := Neutral, foreground := e.original, history := r.history);
    assert s == edited.(view := Identity, background := NoBackground, bgScale := 1.0, bgOffsetX := 0.0, bgOffsetY := 0.0,
                        adj := Neutral, foreground := e.original, history := s.history);
  }

  // ----------------------------------------------------------- background

  /** The colour picker: a colour background; no checkpoint. */
  function BackgroundColorInput(e: Session, css: string): (r: Session)
    ensures r.background == Color(css)
    ensures r == e.(background := r.background)
    ensures BackgroundCmds(SceneOf(r)) == (if e.showBackground then [FillColor(css, e.width, e.height)] else [])
    ensures Inv(e) ==> Inv(r)
  {
    e.(background := Color(css))
  }

  /** A background picture finished loading: it replaces the background at its natural size, centred, with a checkpoint. */
  function BackgroundPictureLoaded(e: Session, width: nat, height: nat): (r: Session)
    requires Inv(e)
    ensures Inv(r)
    ensures r.background == Picture(width, height) && r.bgScale == 1.0 && r.bgOffsetX == 0.0 && r.bgOffsetY == 0.0
    ensures e.width > 0 && e.height > 0 ==> CurrentTag(r) == Some("bg-change")
    ensures r == e.(background := Picture(width, height), bgScale := 1.0, bgOffsetX := 0.0, bgOffsetY := 0.0,
                    history := r.history)
  {
    Record(e.(background := Picture(width, height), bgScale := 1.0, bgOffsetX := 0.0, bgOffsetY := 0.0), "bg-change")
  }

  datatype BackgroundSlider = BgZoom | BgPosX | BgPosY

  /** The value a background slider shows. */
  function BgSetting(e: Session, s: BackgroundSlider): real {
    match s
    case BgZoom => e.bgScale
    case BgPosX => e.bgOffsetX
    case BgPosY => e.bgOffsetY
  }

  /** A background slider moved: it sets its own value and nothing else; no checkpoint. */
  function BackgroundSliderInput(e: Session, s: BackgroundSlider, value: real): (r: Session)
    ensures BgSetting(r, s) == value
    ensures forall t :: t != s ==> BgSetting(r, t) == BgSetting(e, t)
    ensures r == e.(bgScale := r.bgScale, bgOffsetX := r.bgOffsetX, bgOffsetY := r.bgOffsetY)
    ensures Inv(e) ==> Inv(r)
  {
    match s
    case BgZoom => e.(bgScale := value)
    case BgPosX => e.(bgOffsetX := value)
    case BgPosY => e.(bgOffsetY := value)
  }

  /** Moving a background slider back to the value it showed undoes the move. */
  lemma BackgroundSliderRestores(e: Session, s: BackgroundSlider, value: real)
    ensures BackgroundSliderInput(BackgroundSliderInput(e, s, value), s, BgSetting(e, s)) == e
  {
  }

  /** The layers button shows or hides the background. */
  function LayersButton(e: Session): (r: Session)
    ensures r.showBackground != e.showBackground
    ensures r == e.(showBackground := r.showBackground)
    ensures |BackgroundCmds(SceneOf(r))| == 1 <==> !e.showBackground && !e.background.NoBackground?
    ensures Inv(e) ==> Inv(r)
  {
    e.(showBackground := !e.showBackground)
  }

  /** Pressing the layers button twice restores the session. */
  lemma LayersTwice(e: Session)
    ensures LayersButton(LayersButton(e)) == e
  {
  }

  // ------------------------------------------------------------------ view

  function RotateButton(e: Session): (r: Session)
    requires Inv(e)
    ensures Inv(r)
    ensures r.view == Rotate(e.view)
    ensures e.width > 0 && e.height > 0 ==> CurrentTag(r) == Some("rotate")
    ensures r == e.(view := r.view, history := r.history)
  {
    Record(e.(view := Rotate(e.view)), "rotate")
  }

  function FlipButton(e: Session): (r: Session)
    requires Inv(e)
    ensures Inv(r)
    ensures r.view == Flip(e.view)
    ensures e.width > 0 && e.height > 0 ==> CurrentTag(r) == Some("flip")
    ensures r == e.(view := r.view, history := r.history)
  {
    Record(e.(view := Flip(e.view)), "flip")
  }

  /** The zoom buttons change the scale only, and record nothing. */
  function ZoomInButton(e: Session): (r: Session)
    requires Inv(e)
    ensures Inv(r)
    ensures r == e.(view := ZoomIn(e.view))
  {
    e.(view := ZoomIn(e.view))
  }

  function ZoomOutButton(e: Session): (r: Session)
    requires Inv(e)
    ensures Inv(r)
    ensures r == e.(view := ZoomOut(e.view))
  {
    e.(view := ZoomOut(e.view))
  }

  // --------------------------------------------------------------- history

  /** The undo button moves through the history; restoring the entry's pixels is the canvas's. */
  function UndoButton(e: Session): (r: Session)
    requires Inv(e)
    ensures Inv(r)
    ensures r == e.(history := Undo(e.history))
  {
    e.(history := Undo(e.history))
  }

  function RedoButton(e: Session): (r: Session)
    requires Inv(e)
    ensures Inv(r)
    ensures r == e.(history := Redo(e.history))
  {
    e.(history := Redo(e.history))
  }

  // ----------------------------------------------------------------- tools

  /** The crop, move and pan buttons. */
  function ToolButton(e: Session, t: Tool): (r: Session)
    requires t != BrushTool
    ensures r == e.(tools := r.tools)
    ensures r.tools == e.tools.(active := r.tools.active)
    ensures e.tools.active == Some(t) ==> r.tools.active.None?
    ensures e.tools.active != Some(t) ==> r.tools.active == Some(t)
    ensures Inv(e) ==> Inv(r)
  {
    e.(tools := Toggle(e.tools, t))
  }

  function BrushButton(e: Session): (r: Session)
    ensures r == e.(tools := r.tools)
    ensures r.tools.active.None? && r.tools.brushMode == Erase
    ensures r.tools == e.tools.(active := r.tools.active, brushMode := r.tools.brushMode)
    ensures Inv(e) ==> Inv(r)
  {
    e.(tools := ClickBrush(e.tools))
  }

  /** One brush dab on the foreground; nothing without one. */
  function BrushDab(e: Session, at: Point, size: nat, mode: BrushMode): (r: Session)
    requires Inv(e)
    ensures Inv(r)
    ensures e.foreground.None? ==> r == e
    ensures e.foreground.Some? ==>
              && r == e.(foreground := r.foreground) && r.foreground.Some?
              && StampOutcome(e.foreground.value, r.foreground.value, at.x, at.y, size as real / 2.0, mode)
  {
    if e.foreground.None? then e
    else e.(foreground := Some(Stamp(e.foreground.value, at.x, at.y, size, mode)))
  }

  /**
    Cropping to a rectangle of the snapshot raster: the cut-out becomes both
    the foreground and the original picture, the canvas takes its size, and
    the view is reset, since the old view is baked into the pixels. The
    snapshot also bakes in the filtered foreground and any visible
    background, yet the adjustments and the background are kept, so the
    next render filters the cut-out again and draws the background behind
    it again (see `CropRendersLayersAgain`).
   */
  function CropSession(e: Session, snapshot: Image, x: int, y: int, w: nat, h: nat): (r: Session)
    requires Inv(e) && WellFormed(snapshot)
    ensures Inv(r)
    ensures r.width == w && r.height == h && r.view == Identity
    ensures r.foreground.Some? && r.original == r.foreground
    ensures forall i: nat, j: nat | i < w && j < h ::
              At(r.foreground.value, i, j) ==
                if 0 <= x + i < snapshot.width && 0 <= y + j < snapshot.height
                then At(snapshot, x + i, y + j) else Transparent
    ensures r == e.(width := w, height := h, original := r.original, foreground := r.foreground, view := Identity)
  {
    var cut := Extract(snapshot, x, y, w, h);
    e.(width := w, height := h, original := Some(cut), foreground := Some(cut), view := Identity)
  }

  /**
    What an effect may change: the canvas size, the view, the pictures and
    the history. Adjustments, background and tools are left alone.
   */
  predicate Reshaped(e: Session, r: Session) {
    && r.background == e.background && r.showBackground == e.showBackground
    && r.bgScale == e.bgScale && r.bgOffsetX == e.bgOffsetX && r.bgOffsetY == e.bgOffsetY
    && r.adj == e.adj && r.tools == e.tools
  }

  /**
    After a crop, the filter and the background the snapshot was painted
    with are both applied again by the next render.
   */
  lemma CropRendersLayersAgain(e: Session, snapshot: Image, x: int, y: int, w: nat, h: nat)
    requires Inv(e) && WellFormed(snapshot) && e.foreground.Some?
    ensures var r := CropSession(e, snapshot, x, y, w, h);
            var filter := SetFilter(FilterList(e.adj));
            && filter in CropSnapshot(SceneOf(e)) && filter in RenderFinal(SceneOf(r))
            && |BackgroundCmds(SceneOf(r))| == |BackgroundCmds(SceneOf(e))|
  {
    var r := CropSession(e, snapshot, x, y, w, h);
    var filter := SetFilter(FilterList(e.adj));
    var before := CropSnapshot(SceneOf(e));
    var after := RenderFinal(SceneOf(r));
    assert before[1 + |BackgroundCmds(SceneOf(e))|] == filter;
    assert after[2 + |BackgroundCmds(SceneOf(r))|] == filter;
  }

  /** Carries out one effect; `None` when a crop finds no foreground or no snapshot raster. */
  function PerformStep(e: Session, effect: Effect, snapshot: Option<Image>): (r: Option<Session>)
    requires Inv(e)
    requires snapshot.Some? ==> WellFormed(snapshot.value)
    ensures r.Some? ==> Inv(r.value)
    ensures effect.StampAt? ==> r == Some(BrushDab(e, effect.at, effect.size, effect.mode))
    ensures effect.CropTo? && (e.foreground.None? || snapshot.None?) ==> r.None?
    ensures effect.CropTo? && e.foreground.Some? && snapshot.Some? ==>
              r == Some(CropSession(e, snapshot.value, effect.x, effect.y, effect.w, effect.h))
    ensures effect.Checkpoint? ==> r == Some(Record(e, effect.tag))
  {
    match effect
    case StampAt(at, size, mode) => Some(BrushDab(e, at, size, mode))
    case CropTo(x, y, w, h) =>
      if e.foreground.None? || snapshot.None? then None
      else Some(CropSession(e, snapshot.value, x, y, w, h))
    case Checkpoint(tag) => Some(Record(e, tag))
  }

  /**
    Carries out a pointer event's effects in order. A crop without a
    foreground (or without a snapshot raster) aborts the event: the result is
    `None`, and the caller keeps the session it had before the event.
   */
  function Perform(e: Session, effects: seq<Effect>, snapshot: Option<Image>): (r: Option<Session>)
    requires Inv(e)
    requires snapshot.Some? ==> WellFormed(snapshot.value)
    ensures effects == [] ==> r == Some(e)
    ensures r.Some? ==> Inv(r.value) && r.value.tools == e.tools
    ensures r.None? <==> (exists i :: 0 <= i < |effects| && effects[i].CropTo?) && (e.foreground.None? || snapshot.None?)
    decreases |effects|
  {
    if effects == [] then Some(e)
    else
      var next := PerformStep(e, effects[0], snapshot);
      if next.None? then None
      else
        var rest := Perform(next.value, effects[1..], snapshot);
        assert rest.None? ==> exists i :: 0 <= i < |effects[1..]| && effects[1..][i].CropTo?;
        rest
  }

  lemma StepKeepsSettings(e: Session, effect: Effect, snapshot: Option<Image>)
    requires Inv(e)
    requires snapshot.Some? ==> WellFormed(snapshot.value)
    ensures var r := PerformStep(e, effect, snapshot);
            r.Some? ==> Reshaped(e, r.value)
  {
  }

  /** No effect touches the adjustments, the background or the tools. */
  lemma {:induction false} PerformKeepsSettings(e: Session, effects: seq<Effect>, snapshot: Option<Image>)
    requires Inv(e)
    requires snapshot.Some? ==> WellFormed(snapshot.value)
    ensures var r := Perform(e, effects, snapshot);
            r.Some? ==> Reshaped(e, r.value)
    decreases |effects|
  {
    if effects != [] {
      var next := PerformStep(e, effects[0], snapshot);
      if next.Some? {
        StepKeepsSettings(e, effects[0], snapshot);
        PerformKeepsSettings(next.value, effects[1..], snapshot);
      }
    }
  }

  /** Effects without a crop never abort, keep the canvas size, view and original, and only checkpoints touch the history. */
  lemma {:induction false} PerformWithoutCrop(e: Session, effects: seq<Effect>, snapshot: Option<Image>)
    requires Inv(e)
    requires snapshot.Some? ==> WellFormed(snapshot.value)
    requires forall i :: 0 <= i < |effects| ==> !effects[i].CropTo?
    ensures var r := Perform(e, effects, snapshot);
            && r.Some? && r.value.width == e.width && r.value.height == e.height
            && r.value.view == e.view && r.value.original == e.original
            && ((forall i :: 0 <= i < |effects| ==> !effects[i].Checkpoint?) ==> r.value.history == e.history)
    decreases |effects|
  {
    if effects != [] {
      var next := PerformStep(e, effects[0], snapshot);
      assert forall i :: 0 <= i < |effects[1..]| ==> effects[1..][i] == effects[i + 1];
      PerformWithoutCrop(next.value, effects[1..], snapshot);
    }
  }

  /** Checkpoints alone change nothing but the history. */
  lemma {:induction false} PerformCheckpoints(e: Session, effects: seq<Effect>, snapshot: Option<Image>)
    requires Inv(e)
    requires snapshot.Some? ==> WellFormed(snapshot.value)
    requires forall i :: 0 <= i < |effects| ==> effects[i].Checkpoint?
    ensures var r := Perform(e, effects, snapshot);
            r.Some? && r.value == e.(history := r.value.history)
    decreases |effects|
  {
    if effects != [] {
      var next := PerformStep(e, effects[0], snapshot);
      PerformCheckpoints(next.value, effects[1..], snapshot);
    }
  }

  /** A single effect is carried out by one step. */
  lemma PerformOne(e: Session, effect: Effect, snapshot: Option<Image>)
    requires Inv(e)
    requires snapshot.Some? ==> WellFormed(snapshot.value)
    ensures Perform(e, [effect], snapshot) == PerformStep(e, effect, snapshot)
  {
    assert [effect][1..] == [];
  }

  /** Pointer down on the canvas at the given client position. */
  function PointerDown(e: Session, clientX: real, clientY: real, box: ClientRect): (r: Session)
    requires Inv(e) && box.width > 0.0 && box.height > 0.0
    ensures Inv(r)
    ensures r == e.(tools := r.tools, foreground := r.foreground)
    ensures r.tools == OnDown(e.tools, PointerPos(clientX, clientY, box, e.width, e.height), Point(clientX, clientY)).0
    ensures e.tools.active != Some(BrushTool) ==> r.foreground == e.foreground
    ensures e.tools.active == Some(BrushTool) && e.foreground.Some? ==>
              var pos := PointerPos(clientX, clientY, box, e.width, e.height);
              r.foreground == Some(Stamp(e.foreground.value, pos.x, pos.y, e.tools.brushSize, e.tools.brushMode))
  {
    var pos := PointerPos(clientX, clientY, box, e.width, e.height);
    var pressed := OnDown(e.tools, pos, Point(clientX, clientY));
    var r := Perform(e, pressed.1, None);
    PerformKeepsSettings(e, pressed.1, None);
    if r.None? then e
    else if pressed.1 == [] then r.value.(tools := pressed.0)
    else
      PerformOne(e, pressed.1[0], None);
      r.value.(tools := pressed.0)
  }

  /** Pointer move over the canvas. */
  function PointerMove(e: Session, clientX: real, clientY: real, box: ClientRect): (r: Session)
    requires Inv(e) && box.width > 0.0 && box.height > 0.0
    ensures Inv(r)
    ensures r == e.(tools := r.tools, view := r.view, foreground := r.foreground)
    ensures var moved := OnMove(e.tools, e.view, PointerPos(clientX, clientY, box, e.width, e.height),
                                Point(clientX, clientY), e.width, e.height);
            r.tools == moved.0 && r.view == moved.1
    ensures !(e.tools.active == Some(BrushTool) && e.tools.drawing) ==> r.foreground == e.foreground
    ensures e.tools.active == Some(BrushTool) && e.tools.drawing && e.foreground.Some? ==>
              var at := BrushToImage(e.view, e.width, e.height, PointerPos(clientX, clientY, box, e.width, e.height));
              r.foreground == Some(Stamp(e.foreground.value, at.x, at.y, e.tools.brushSize, e.tools.brushMode))
  {
    var pos := PointerPos(clientX, clientY, box, e.width, e.height);
    var moved := OnMove(e.tools, e.view, pos, Point(clientX, clientY), e.width, e.height);
    var r := Perform(e.(view := moved.1), moved.2, None);
    PerformKeepsSettings(e.(view := moved.1), moved.2, None);
    if r.Some? then r.value.(tools := moved.0) else e
  }

  /**
    Pointer up. `snapshot` is the raster the crop snapshot's display list
    (`CropSnapshot`) paints on a canvas of the session's size; only a
    committed crop reads it.
    A committed crop without a foreground aborts the whole handler.
   */
  function PointerUp(e: Session, snapshot: Image): (r: Session)
    requires Inv(e) && WellFormed(snapshot)
    ensures Inv(r)
    ensures CommitsCrop(e.tools) && e.foreground.None? ==> r == e
    ensures r.adj == e.adj && r.background == e.background && r.showBackground == e.showBackground
    ensures r.bgScale == e.bgScale && r.bgOffsetX == e.bgOffsetX && r.bgOffsetY == e.bgOffsetY
    ensures !(CommitsCrop(e.tools) && e.foreground.None?) ==>
              r.tools == OnUp(e.tools).0 && !r.tools.drawing && r.tools.cropRect.None?
    ensures CommitsCrop(e.tools) && e.foreground.Some? ==>
              var c := CommittedCrop(e.tools.cropRect.value);
              && r.width == c.w && r.height == c.h && r.view == Identity
              && r.foreground == Some(Extract(snapshot, c.x, c.y, c.w, c.h)) && r.original == r.foreground
              && CurrentTag(r) == Some("crop")
    ensures !CommitsCrop(e.tools) ==>
              && r.width == e.width && r.height == e.height && r.view == e.view
              && r.foreground == e.foreground && r.original == e.original
    ensures !CommitsCrop(e.tools) && !(e.tools.active == Some(BrushTool) && e.tools.drawing) ==> r.history == e.history
    ensures e.tools.active == Some(BrushTool) && e.tools.drawing && e.width > 0 && e.height > 0 ==>
              CurrentTag(r) == Some("brush")
  {
    var released := OnUp(e.tools);
    var lifted := e.(tools := released.0);
    var r := Perform(lifted, released.1, Some(snapshot));
    PerformKeepsSettings(lifted, released.1, Some(snapshot));
    if !CommitsCrop(e.tools) then
      if e.tools.active == Some(BrushTool) && e.tools.drawing then
        PerformOne(lifted, Checkpoint("brush"), Some(snapshot));
        r.value
      else r.value
    else if e.foreground.None? then e
    else
      var c := CommittedCrop(e.tools.cropRect.value);
      PerformOne(CropSession(lifted, snapshot, c.x, c.y, c.w, c.h), Checkpoint("crop"), Some(snapshot));
      r.value
  }

  /** Pointer cancel: the drag ends; nothing is cropped, painted or recorded. */
  function PointerCancel(e: Session): (r: Session)
    ensures r == e.(tools := OnCancel(e.tools))
    ensures !r.tools.drawing && r.tools.cropRect.None?
  {
    e.(tools := OnCancel(e.tools))
  }

  /** The wheel over the canvas: resizes the brush when it is selected. */
  function WheelTurn(e: Session, deltaY: real): (r: Session)
    ensures r == e.(tools := r.tools)
    ensures r.tools == e.tools.(brushSize := r.tools.brushSize)
    ensures e.tools.active != Some(BrushTool) ==> r == e
    ensures e.tools.active == Some(BrushTool) && deltaY <= 0.0 ==> r.tools.brushSize == e.tools.brushSize + 4
    ensures e.tools.active == Some(BrushTool) && deltaY > 0.0 ==>
              r.tools.brushSize == (if e.tools.brushSize >= 8 then e.tools.brushSize - 4 else 4)
    ensures Inv(e) ==> Inv(r)
  {
    e.(tools := OnWheel(e.tools, deltaY))
  }

  // ------------------------------------------------------------- sessions

  /** Everything the user can do to the page. */
  datatype UserEvent =
    | Upload(img: Image)
    | ClearClick
    | RemoveBackgroundClick(confidence: Option<seq<real>>)
    | MagicEraserClick(confidence: Option<seq<real>>)
    | PresetClick(name: string)
    | SliderMoved(slider: Slider, value: real)
    | UnblurClick
    | ResetClick
    | ColorPicked(css: string)
    | PictureLoaded(width: nat, height: nat)
    | BackgroundSliderMoved(which: BackgroundSlider, value: real)
    | LayersClick
    | RotateClick
    | FlipClick
    | ZoomInClick
    | ZoomOutClick
    | UndoClick
    | RedoClick
    | ToolClick(tool: Tool)
    | BrushClick
    | Pressed(clientX: real, clientY: real, box: ClientRect)
    | Moved(clientX: real, clientY: real, box: ClientRect)
    | Released(snapshot: Image)
    | Cancelled
    | WheelTurned(deltaY: real)

  /** Events the page can deliver: decoded pictures, a laid-out canvas, and only the three plain tool buttons as `ToolClick`. */
  predicate Deliverable(ev: UserEvent) {
    match ev
    case Upload(img) => WellFormed(img)
    case Released(snapshot) => WellFormed(snapshot)
    case Pressed(_, _, box) => box.width > 0.0 && box.height > 0.0
    case Moved(_, _, box) => box.width > 0.0 && box.height > 0.0
    case ToolClick(t) => t != BrushTool
    case _ => true
  }

  function Step(e: Session, ev: UserEvent): (r: Session)
    requires Inv(e) && Deliverable(ev)
    ensures Inv(r)
  {
    match ev
    case Upload(img) => LoadImage(e, img)
    case ClearClick => ClearAll(e)
    case RemoveBackgroundClick(confidence) => RemoveBackgroundButton(e, confidence)
    case MagicEraserClick(confidence) => MagicEraserButton(e, confidence)
    case PresetClick(name) => PresetButton(e, name)
    case SliderMoved(slider, value) => SliderInput(e, slider, value)
    case UnblurClick => UnblurButton(e)
    case ResetClick => ResetButton(e)
    case ColorPicked(css) => BackgroundColorInput(e, css)
    case PictureLoaded(width, height) => BackgroundPictureLoaded(e, width, height)
    case BackgroundSliderMoved(which, value) => BackgroundSliderInput(e, which, value)
    case LayersClick => LayersButton(e)
    case RotateClick => RotateButton(e)
    case FlipClick => FlipButton(e)
    case ZoomInClick => ZoomInButton(e)
    case ZoomOutClick => ZoomOutButton(e)
    case UndoClick => UndoButton(e)
    case RedoClick => RedoButton(e)
    case ToolClick(t) => ToolButton(e, t)
    case BrushClick => BrushButton(e)
    case Pressed(x, y, box) => PointerDown(e, x, y, box)
    case Moved(x, y, box) => PointerMove(e, x, y, box)
    case Released(snapshot) => PointerUp(e, snapshot)
    case Cancelled => PointerCancel(e)
    case WheelTurned(deltaY) => WheelTurn(e, deltaY)
  }

  /**
    A whole session of events. Every session reached this way keeps the
    invariant: at most 30 history entries, an index inside the log that is
    -1 exactly when the log is empty, a view with a quarter-turn rotation
    and a scale inside the zoom clamps, and rasters of the canvas's size.
   */
  function Run(e: Session, events: seq<UserEvent>): (r: Session)
    requires Inv(e)
    requires forall i :: 0 <= i < |events| ==> Deliverable(events[i])
    ensures Inv(r)
    ensures |r.history.entries| <= MaxHistory && -1 <= r.history.index < |r.history.entries|
    ensures r.history.index == -1 <==> r.history.entries == []
    ensures r.view.rotation in {0, 90, 180, 270} && MinScale <= r.view.scale <= MaxScale
    decreases |events|
  {
    if events == [] then e
    else Run(Step(e, events[0]), events[1..])
  }

  // -------------------------------------------------------------- scenarios

  /** Loading a picture and choosing black and white: the preset's values, two checkpoints, undo back to the upload. */
  lemma UploadThenBlackAndWhite(e: Session, img: Image)
    requires Inv(e) && WellFormed(img) && img.width > 0 && img.height > 0
    ensures var bw := PresetButton(LoadImage(e, img), "bw");
            && bw.adj.brightness == 0.0 && bw.adj.contrast == 20.0 && bw.adj.saturation == -100.0
            && bw.adj.tintColor.None? && bw.adj.exposure == e.adj.exposure
            && |bw.history.entries| == 2 && bw.history.entries[0].tag == "init" && bw.history.entries[1].tag == "preset-bw"
            && CanUndo(bw.history) && !CanRedo(bw.history)
            && CurrentTag(UndoButton(bw)) == Some("init") && CanRedo(UndoButton(bw).history)
  {
    var loaded := LoadImage(e, img);
    var bw := PresetButton(loaded, "bw");
    assert loaded.history.entries[..loaded.history.index + 1] == loaded.history.entries;
  }

  /** A preset name without a row changes no adjustment, yet a checkpoint is still recorded. */
  lemma UnknownPresetStillRecords(e: Session, name: string)
    requires Inv(e) && PresetTable(name).None? && e.width > 0 && e.height > 0
    ensures var r := PresetButton(e, name);
            r.adj == e.adj && CurrentTag(r) == Some("preset-" + name)
  {
  }

  /** Undo followed by redo returns to the same session. */
  lemma UndoThenRedoSession(e: Session)
    requires Inv(e) && CanUndo(e.history)
    ensures RedoButton(UndoButton(e)) == e
  {
    UndoThenRedo(e.history);
  }

  /**
    Rotating and flipping, then dragging a crop from (10, 10) to (60, 60) on a
    canvas shown at its natural size: the picture becomes the 50 by 50 cut of
    the snapshot, the view returns to the identity, and the crop is recorded.
   */
  lemma RotateFlipCrop(e: Session, snapshot: Image)
    requires Inv(e) && e.foreground.Some? && e.width > 0 && e.height > 0 && WellFormed(snapshot)
    requires e.tools.active.None? && !e.tools.drawing
    ensures var box := ClientRect(0.0, 0.0, e.width as real, e.height as real);
            var turned := FlipButton(RotateButton(e));
            var armed := ToolButton(turned, CropTool);
            var r := PointerUp(PointerMove(PointerDown(armed, 10.0, 10.0, box), 60.0, 60.0, box), snapshot);
            && turned.view.rotation == (e.view.rotation + 90) % 360 && turned.view.flipped == !e.view.flipped
            && r.width == 50 && r.height == 50 && r.view == Identity
            && r.foreground == Some(Extract(snapshot, 10, 10, 50, 50)) && r.original == r.foreground
            && CurrentTag(r) == Some("crop") && !r.tools.drawing && r.tools.cropRect.None?
  {
    var box := ClientRect(0.0, 0.0, e.width as real, e.height as real);
    PointerPosNaturalSize(10.0, 10.0, box, e.width, e.height);
    PointerPosNaturalSize(60.0, 60.0, box, e.width, e.height);
    var turned := FlipButton(RotateButton(e));
    var armed := ToolButton(turned, CropTool);
    var down := PointerDown(armed, 10.0, 10.0, box);
    assert down.tools.cropStart == Some(Point(10.0, 10.0)) && down.tools.drawing;
    var moved := PointerMove(down, 60.0, 60.0, box);
    assert moved.tools.cropRect == Some(CropRect(10.0, 10.0, 50.0, 50.0));
    assert CommittedCrop(CropRect(10.0, 10.0, 50.0, 50.0)) == CropTo(10, 10, 50, 50);
  }

  /** A crop drag that the browser cancels crops nothing and records nothing. */
  lemma CancelledCropChangesNothing(e: Session, x0: real, y0: real, x1: real, y1: real, box: ClientRect)
    requires Inv(e) && box.width > 0.0 && box.height > 0.0
    requires e.tools.active == Some(CropTool)
    ensures var r := PointerCancel(PointerMove(PointerDown(e, x0, y0, box), x1, y1, box));
            && r.history == e.history && r.foreground == e.foreground && r.original == e.original
            && r.width == e.width && r.height == e.height && r.view == e.view
            && !r.tools.drawing && r.tools.cropStart.None? && r.tools.cropRect.None?
  {
  }

  /** One brush stroke (press, release) records exactly one checkpoint, tagged `brush`, and only on release. */
  lemma BrushStrokeRecordsOnce(e: Session, x: real, y: real, box: ClientRect, snapshot: Image)
    requires Inv(e) && box.width > 0.0 && box.height > 0.0 && WellFormed(snapshot)
    requires e.tools.active == Some(BrushTool) && e.width > 0 && e.height > 0
    ensures var down := PointerDown(e, x, y, box);
            var up := PointerUp(down, snapshot);
            && down.history == e.history
            && CurrentTag(up) == Some("brush")
            && up.width == e.width && up.height == e.height && up.foreground == down.foreground
  {
  }
}
