/**
  The pointer and tool state machine: which tool is selected, the drag in
  progress, and what each pointer event does. Steps are pure; the raster and
  history side of an event is returned as a list of effects for the editor
  session to carry out.
 */
module Tools {
  import opened Base
  import opened View
  import Raster

  datatype Tool = CropTool | BrushTool | PanTool | MoveTool

  datatype ToolState = ToolState(
    active: Option<Tool>, drawing: bool,
    cropStart: Option<Point>, cropRect: Option<CropRect>, panStart: Point,
    brushSize: nat, brushMode: Raster.BrushMode, magicStrict: bool)

  const Initial := ToolState(None, false, None, None, Point(0.0, 0.0), 30, Raster.Erase, true)

  const MinBrushSize: nat := 4
  const BrushStep: int := 4
  /** A crop drag must exceed this in both directions; smaller drags are accidental. */
  const MinCropSide: real := 5.0

  /** Thresholds of the magic eraser's strict and loose passes. */
  const StrictThreshold: real := 0.6
  const LooseThreshold: real := 0.35

  /** A side effect an event asks the session to carry out, in order. */
  datatype Effect =
    | StampAt(at: Point, size: nat, mode: Raster.BrushMode)
    | CropTo(x: int, y: int, w: nat, h: nat)
    | Checkpoint(tag: string)

  /** Marks a tool selected (or none) and the others not. */
  function SetActiveTool(s: ToolState, t: Option<Tool>): (r: ToolState)
    ensures r.active == t
    ensures r == s.(active := r.active)
  {
    s.(active := t)
  }

  /** The crop, move and pan buttons: select the tool, or deselect it when it is already selected. */
  function Toggle(s: ToolState, t: Tool): (r: ToolState)
    ensures s.active == Some(t) ==> r.active.None?
    ensures s.active != Some(t) ==> r.active == Some(t)
    ensures r == s.(active := r.active)
  {
    SetActiveTool(s, if s.active == Some(t) then None else Some(t))
  }

  /** Pressing a button twice restores the selection it started from, unless another tool was selected. */
  lemma ToggleTwice(s: ToolState, t: Tool)
    requires s.active.None? || s.active == Some(t)
    ensures Toggle(Toggle(s, t), t) == s
  {
  }

  /**
    The brush button runs two click handlers in turn: the first selects the
    brush in paint mode, the second switches to erase mode and, finding the
    brush selected, deselects it.
   */
  function ClickBrush(s: ToolState): (r: ToolState)
    ensures r == s.(active := None, brushMode := Raster.Erase)
  {
    var first := SetActiveTool(s.(brushMode := Raster.Paint), Some(BrushTool));
    var second := first.(brushMode := Raster.Erase);
    SetActiveTool(second, if second.active == Some(BrushTool) then None else Some(BrushTool))
  }

  /**
    The magic eraser button's tool part: its first handler selects the brush
    in erase mode; its second flips between the strict and loose threshold
    (the re-segmentation it then starts is the session's).
   */
  function ClickMagicEraser(s: ToolState): (r: ToolState)
    ensures r.active == Some(BrushTool) && r.brushMode == Raster.Erase
    ensures r.magicStrict != s.magicStrict
    ensures r == s.(active := r.active, brushMode := r.brushMode, magicStrict := r.magicStrict)
  {
    var first := SetActiveTool(s.(brushMode := Raster.Erase), Some(BrushTool));
    first.(magicStrict := !first.magicStrict)
  }

  function Threshold(strict: bool): (t: real)
    ensures 0.0 < t < 1.0
    ensures strict ==> t == StrictThreshold
    ensures !strict ==> t == LooseThreshold
  {
    if strict then StrictThreshold else LooseThreshold
  }

  /** Two magic eraser clicks run one strict and one loose pass, in some order. */
  lemma MagicEraserAlternates(s: ToolState)
    ensures var once := ClickMagicEraser(s);
            var twice := ClickMagicEraser(once);
            {Threshold(once.magicStrict), Threshold(twice.magicStrict)} == {StrictThreshold, LooseThreshold}
            && twice.magicStrict == s.magicStrict
  {
  }

  /** The crop preview: the rectangle spanned by the drag's start and the pointer. */
  function CropPreview(start: Point, p: Point): (r: CropRect)
    ensures r.w >= 0.0 && r.h >= 0.0
    ensures (r.x == start.x && r.x + r.w == p.x) || (r.x == p.x && r.x + r.w == start.x)
    ensures (r.y == start.y && r.y + r.h == p.y) || (r.y == p.y && r.y + r.h == start.y)
  {
    CropRect(Min(start.x, p.x), Min(start.y, p.y), Abs(p.x - start.x), Abs(p.y - start.y))
  }

  /** Pointer down: start a crop, a brush stroke (dabbing at once) or a pan, by tool. */
  function OnDown(s: ToolState, pos: Point, client: Point): (r: (ToolState, seq<Effect>))
    ensures s.active == Some(CropTool) ==>
              r == (s.(cropStart := Some(pos), cropRect := None, drawing := true), [])
    ensures s.active == Some(BrushTool) ==>
              r == (s.(drawing := true), [StampAt(pos, s.brushSize, s.brushMode)])
    ensures s.active == Some(PanTool) ==>
              r == (s.(drawing := true, panStart := client), [])
    ensures s.active.None? || s.active == Some(MoveTool) ==> r == (s, [])
  {
    match s.active
    case Some(CropTool) => (s.(cropStart := Some(pos), cropRect := None, drawing := true), [])
    case Some(BrushTool) => (s.(drawing := true), [StampAt(pos, s.brushSize, s.brushMode)])
    case Some(PanTool) => (s.(drawing := true, panStart := client), [])
    case _ => (s, [])
  }

  /**
    Pointer move during a drag: update the crop preview, dab the brush at the
    pointer mapped back into the foreground, or pan the view by the pointer's
    movement since the last event.
   */
  function OnMove(s: ToolState, v: ViewTransform, pos: Point, client: Point, width: nat, height: nat): (r: (ToolState, ViewTransform, seq<Effect>))
    requires ValidRotation(v.rotation) && v.scale > 0.0
    ensures !s.drawing ==> r == (s, v, [])
    ensures s.active == Some(CropTool) && s.drawing && s.cropStart.Some? ==>
              r == (s.(cropRect := Some(CropPreview(s.cropStart.value, pos))), v, [])
    ensures s.active == Some(BrushTool) && s.drawing ==>
              r == (s, v, [StampAt(BrushToImage(v, width, height, pos), s.brushSize, s.brushMode)])
    ensures (s.active == Some(PanTool) || s.active == Some(MoveTool)) && s.drawing ==>
              && r.0 == s.(panStart := client) && r.2 == []
              && r.1 == Pan(v, client.x - s.panStart.x, client.y - s.panStart.y)
  {
    if !s.drawing then (s, v, [])
    else match s.active
      case Some(CropTool) =>
        if s.cropStart.Some? then (s.(cropRect := Some(CropPreview(s.cropStart.value, pos))), v, [])
        else (s, v, [])
      case Some(BrushTool) => (s, v, [StampAt(BrushToImage(v, width, height, pos), s.brushSize, s.brushMode)])
      case Some(_) => (s.(panStart := client), Pan(v, client.x - s.panStart.x, client.y - s.panStart.y), [])
      case None => (s, v, [])
  }

  /** Whether releasing the pointer commits a crop: the crop tool with a preview over the minimum both ways. */
  predicate CommitsCrop(s: ToolState) {
    s.active == Some(CropTool) && s.cropRect.Some? && s.cropRect.value.w > MinCropSide && s.cropRect.value.h > MinCropSide
  }

  /** The crop a release commits: the preview rounded to whole pixels. */
  function CommittedCrop(rect: CropRect): (e: Effect)
    requires rect.w > MinCropSide && rect.h > MinCropSide
    ensures e.CropTo? && e.w >= 5 && e.h >= 5
    ensures e.x as real - 0.5 <= rect.x < e.x as real + 0.5 && e.y as real - 0.5 <= rect.y < e.y as real + 0.5
    ensures e.w as real - 0.5 <= rect.w < e.w as real + 0.5 && e.h as real - 0.5 <= rect.h < e.h as real + 0.5
  {
    CropTo(Round(rect.x), Round(rect.y), Round(rect.w), Round(rect.h))
  }

  /**
    Pointer up: commit the crop and checkpoint it, or checkpoint the brush
    stroke; in every case end the drag and drop the crop preview.
   */
  function OnUp(s: ToolState): (r: (ToolState, seq<Effect>))
    ensures r.0 == s.(drawing := false, cropStart := None, cropRect := None)
    ensures CommitsCrop(s) ==> r.1 == [CommittedCrop(s.cropRect.value), Checkpoint("crop")]
    ensures s.active == Some(BrushTool) && s.drawing ==> r.1 == [Checkpoint("brush")]
    ensures !CommitsCrop(s) && !(s.active == Some(BrushTool) && s.drawing) ==> r.1 == []
  {
    var crop := if CommitsCrop(s) then [CommittedCrop(s.cropRect.value), Checkpoint("crop")] else [];
    var stroke := if s.active == Some(BrushTool) && s.drawing then [Checkpoint("brush")] else [];
    (s.(drawing := false, cropStart := None, cropRect := None), crop + stroke)
  }

  /** Pointer cancel: end the drag and drop the preview; never crops or checkpoints. */
  function OnCancel(s: ToolState): (r: ToolState)
    ensures !r.drawing && r.cropStart.None? && r.cropRect.None?
    ensures r == s.(drawing := r.drawing, cropStart := r.cropStart, cropRect := r.cropRect)
  {
    s.(drawing := false, cropStart := None, cropRect := None)
  }

  /** The wheel resizes the brush by one step per notch while the brush is selected. */
  function OnWheel(s: ToolState, deltaY: real): (r: ToolState)
    ensures s.active != Some(BrushTool) ==> r == s
    ensures r == s.(brushSize := r.brushSize)
    ensures s.active == Some(BrushTool) ==> r.brushSize >= MinBrushSize
    ensures s.active == Some(BrushTool) && deltaY <= 0.0 ==> r.brushSize == s.brushSize + 4
    ensures s.active == Some(BrushTool) && deltaY > 0.0 ==>
              r.brushSize == (if s.brushSize >= MinBrushSize + 4 then s.brushSize - 4 else MinBrushSize)
    ensures s.active == Some(BrushTool) && deltaY > 0.0 ==> r.brushSize < s.brushSize || r.brushSize == MinBrushSize
  {
    if s.active == Some(BrushTool) then
      var grown := s.brushSize as int + (if deltaY > 0.0 then -BrushStep else BrushStep);
      s.(brushSize := if grown < MinBrushSize as int then MinBrushSize else grown)
    else s
  }

  /** One notch up (a negative delta) then one notch down restores a brush of at least the minimum size. */
  lemma WheelRoundTrip(s: ToolState)
    requires s.active == Some(BrushTool) && s.brushSize >= MinBrushSize
    ensures OnWheel(OnWheel(s, -1.0), 1.0) == s
  {
  }

  /** A run of pointer moves at the given client positions (canvas positions play no part in a pan). */
  function Drag(s: ToolState, v: ViewTransform, clients: seq<Point>, width: nat, height: nat): (r: (ToolState, ViewTransform))
    requires ValidRotation(v.rotation) && v.scale > 0.0
    ensures ValidRotation(r.1.rotation) && r.1.scale == v.scale
    decreases |clients|
  {
    if clients == [] then (s, v)
    else
      var step := OnMove(s, v, clients[0], clients[0], width, height);
      Drag(step.0, step.1, clients[1..], width, height)
  }

  /**
    While panning, a run of moves shifts the view by exactly the distance from
    the pointer's position at the start of the run to its last position, and
    leaves the pointer's last position as the next move's reference.
   */
  lemma {:induction false} DragTelescopes(s: ToolState, v: ViewTransform, clients: seq<Point>, width: nat, height: nat)
    requires ValidRotation(v.rotation) && v.scale > 0.0
    requires s.active == Some(PanTool) || s.active == Some(MoveTool)
    requires s.drawing && clients != []
    ensures var r := Drag(s, v, clients, width, height);
            var last := clients[|clients| - 1];
            && r.0 == s.(panStart := last)
            && r.1 == v.(offsetX := v.offsetX + (last.x - s.panStart.x), offsetY := v.offsetY + (last.y - s.panStart.y))
    decreases |clients|
  {
    var step := OnMove(s, v, clients[0], clients[0], width, height);
    if |clients| > 1 {
      DragTelescopes(step.0, step.1, clients[1..], width, height);
    }
  }

  /** A whole pan gesture: the view ends up moved by the last pointer position minus the one pressed at. */
  lemma PanGesture(s: ToolState, v: ViewTransform, down: Point, pos: Point, clients: seq<Point>, width: nat, height: nat)
    requires ValidRotation(v.rotation) && v.scale > 0.0
    requires s.active == Some(PanTool) && clients != []
    ensures var pressed := OnDown(s, pos, down);
            var r := Drag(pressed.0, v, clients, width, height);
            var last := clients[|clients| - 1];
            && pressed.1 == []
            && r.1 == v.(offsetX := v.offsetX + (last.x - down.x), offsetY := v.offsetY + (last.y - down.y))
            && OnUp(r.0).1 == []
  {
    var pressed := OnDown(s, pos, down);
    DragTelescopes(pressed.0, v, clients, width, height);
  }

  /** Outside a drag, moves change nothing. */
  lemma {:induction false} IdleDragInert(s: ToolState, v: ViewTransform, clients: seq<Point>, width: nat, height: nat)
    requires ValidRotation(v.rotation) && v.scale > 0.0
    requires !s.drawing
    ensures Drag(s, v, clients, width, height) == (s, v)
    decreases |clients|
  {
    if clients != [] {
      IdleDragInert(s, v, clients[1..], width, height);
    }
  }

  /**
    The move tool never starts a drag of its own: pressed while idle it stays
    idle, so the moves that follow leave the view where it was.
   */
  lemma MoveToolPressInert(s: ToolState, v: ViewTransform, pos: Point, client: Point, clients: seq<Point>, width: nat, height: nat)
    requires ValidRotation(v.rotation) && v.scale > 0.0
    requires s.active == Some(MoveTool) && !s.drawing
    ensures var pressed := OnDown(s, pos, client);
            && pressed == (s, [])
            && Drag(pressed.0, v, clients, width, height) == (s, v)
  {
    IdleDragInert(s, v, clients, width, height);
  }
}
