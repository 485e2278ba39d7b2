/**
  The compositor as a display list: the sequence of canvas drawing commands
  the editor issues to render its state, and the variant it issues to take
  the snapshot a crop is cut from. The pixels those commands produce belong
  to the canvas and are not modelled.
 */
module Render {
  import opened Base
  import opened Adjust
  import opened View

  /** The replacement background: none, a CSS colour, or a picture of the given size. */
  datatype Background = NoBackground | Color(css: string) | Picture(width: nat, height: nat)

  /** Everything the compositor reads. */
  datatype Scene = Scene(
    width: nat, height: nat, hasForeground: bool,
    background: Background, bgScale: real, bgOffsetX: real, bgOffsetY: real, showBackground: bool,
    adj: Adjustments, view: ViewTransform, cropRect: Option<CropRect>)

  datatype Cmd =
    | ClearSurface(width: nat, height: nat)
      /** Save the context and apply the view transform about the canvas centre. */
    | BeginView(view: ViewTransform, width: nat, height: nat)
    | DrawPicture(x: real, y: real, w: real, h: real)
    | FillColor(css: string, width: nat, height: nat)
    | SetFilter(ops: seq<FilterOp>)
    | DrawForeground
      /**
        Fill with the colour over everything drawn so far (`source-atop`):
        the foreground and any visible background.
       */
    | TintAtop(color: Rgba, width: nat, height: nat)
    | ClearFilter
      /** Restore the context saved by `BeginView`. */
    | EndView
    | OutlineCrop(rect: CropRect)

  predicate IsBackground(c: Cmd) {
    c.DrawPicture? || c.FillColor?
  }

  /**
    The background layer: a picture scaled by its own zoom and centred on the
    canvas plus its own offset, or a colour filling the canvas; nothing when
    the layer is hidden or unset.
   */
  function BackgroundCmds(sc: Scene): (cmds: seq<Cmd>)
    ensures |cmds| <= 1
    ensures forall i :: 0 <= i < |cmds| ==> IsBackground(cmds[i])
    ensures |cmds| == 1 <==> sc.showBackground && !sc.background.NoBackground?
  {
    if !sc.showBackground then []
    else match sc.background
      case NoBackground => []
      case Color(css) => [FillColor(css, sc.width, sc.height)]
      case Picture(pw, ph) =>
        var w := Zoomed(pw, sc.bgScale);
        var h := Zoomed(ph, sc.bgScale);
        [DrawPicture(sc.bgOffsetX - (w - sc.width as real) / 2.0, sc.bgOffsetY - (h - sc.height as real) / 2.0, w, h)]
  }

  /** A picture dimension at the background's own zoom. */
  function Zoomed(size: nat, zoom: real): real {
    size as real * zoom
  }

  /** The background layer depends only on the background fields and the canvas size. */
  lemma BackgroundFrame(a: Scene, b: Scene)
    requires a.width == b.width && a.height == b.height && a.background == b.background
    requires a.bgScale == b.bgScale && a.bgOffsetX == b.bgOffsetX && a.bgOffsetY == b.bgOffsetY
    requires a.showBackground == b.showBackground
    ensures BackgroundCmds(a) == BackgroundCmds(b)
  {
  }

  /** A picture background is drawn at its zoomed size, centred on the canvas centre moved by its offset. */
  lemma PictureCentred(sc: Scene)
    requires sc.showBackground && sc.background.Picture?
    ensures var c := BackgroundCmds(sc)[0];
            && c.w == sc.background.width as real * sc.bgScale
            && c.h == sc.background.height as real * sc.bgScale
            && c.x + c.w / 2.0 == sc.width as real / 2.0 + sc.bgOffsetX
            && c.y + c.h / 2.0 == sc.height as real / 2.0 + sc.bgOffsetY
  {
  }

  /** The tint step: present exactly when a preset tint colour is set. */
  function TintCmds(sc: Scene): (cmds: seq<Cmd>)
    ensures |cmds| == (if sc.adj.tintColor.Some? then 1 else 0)
    ensures forall i :: 0 <= i < |cmds| ==> cmds[i] == TintAtop(sc.adj.tintColor.value, sc.width, sc.height)
  {
    match sc.adj.tintColor
    case None => []
    case Some(color) => [TintAtop(color, sc.width, sc.height)]
  }

  /** The crop outline, drawn when a crop drag is in progress. */
  function OverlayCmds(sc: Scene): (cmds: seq<Cmd>)
    ensures |cmds| == (if sc.cropRect.Some? then 1 else 0)
    ensures forall i :: 0 <= i < |cmds| ==> cmds[i] == OutlineCrop(sc.cropRect.value)
  {
    match sc.cropRect
    case None => []
    case Some(rect) => [OutlineCrop(rect)]
  }

  /**
    Renders the scene: nothing at all without a foreground; otherwise clear,
    enter the view transform, background, filtered foreground, the tint over
    everything drawn so far (the foreground and any visible background),
    leave the transform, and the crop outline on top in untransformed canvas
    coordinates.
   */
  function RenderFinal(sc: Scene): (cmds: seq<Cmd>)
    ensures !sc.hasForeground ==> cmds == []
    ensures sc.hasForeground ==>
              && |cmds| >= 6
              && cmds[0] == ClearSurface(sc.width, sc.height)
              && cmds[1] == BeginView(sc.view, sc.width, sc.height)
    ensures sc.hasForeground && sc.cropRect.Some? ==>
              cmds[|cmds| - 1] == OutlineCrop(sc.cropRect.value) && cmds[|cmds| - 2] == EndView
  {
    if !sc.hasForeground then []
    else
      [ClearSurface(sc.width, sc.height), BeginView(sc.view, sc.width, sc.height)] + BackgroundCmds(sc)
        + [SetFilter(FilterList(sc.adj)), DrawForeground] + TintCmds(sc) + [ClearFilter, EndView]
        + OverlayCmds(sc)
  }

  /**
    Where each kind of command can sit in a render: the foreground only at
    its one slot `f`, right after the filter; backgrounds before it; tints
    after it and only with a tint colour; outlines only during a crop.
   */
  lemma RenderPositions(sc: Scene)
    requires sc.hasForeground
    ensures var cmds := RenderFinal(sc);
            var f := 3 + |BackgroundCmds(sc)|;
            && f < |cmds|
            && cmds[f] == DrawForeground && cmds[f - 1] == SetFilter(FilterList(sc.adj))
            && (sc.adj.tintColor.Some? ==> f + 1 < |cmds| && cmds[f + 1].TintAtop?)
            && (forall i :: 0 <= i < |cmds| && cmds[i] == DrawForeground ==> i == f)
            && (forall i :: 0 <= i < |cmds| && IsBackground(cmds[i]) ==> i < f)
            && (forall i :: 0 <= i < |cmds| && cmds[i].TintAtop? ==> f < i && sc.adj.tintColor.Some?)
            && (forall i :: 0 <= i < |cmds| && cmds[i].OutlineCrop? ==> sc.cropRect.Some?)
  {
    var cmds := RenderFinal(sc);
    var bg := BackgroundCmds(sc);
    var tint := TintCmds(sc);
    var f := 3 + |bg|;
    assert cmds == [ClearSurface(sc.width, sc.height), BeginView(sc.view, sc.width, sc.height)] + bg
                   + [SetFilter(FilterList(sc.adj)), DrawForeground] + tint + [ClearFilter, EndView] + OverlayCmds(sc);
    assert |cmds| == f + 1 + |tint| + 2 + |OverlayCmds(sc)|;
    forall i | 0 <= i < |cmds|
      ensures i < 2 ==> !IsBackground(cmds[i]) && cmds[i] != DrawForeground && !cmds[i].TintAtop? && !cmds[i].OutlineCrop?
      ensures 2 <= i < f - 1 ==> cmds[i] == bg[i - 2]
      ensures i == f - 1 ==> cmds[i] == SetFilter(FilterList(sc.adj))
      ensures i == f ==> cmds[i] == DrawForeground
      ensures f < i <= f + |tint| ==> cmds[i] == tint[i - f - 1]
      ensures f + |tint| < i < f + |tint| + 3 ==> cmds[i] == ClearFilter || cmds[i] == EndView
      ensures f + |tint| + 3 <= i ==> cmds[i] == OverlayCmds(sc)[i - f - |tint| - 3]
    {
    }
  }

  /**
    The layers of a render, in order: the background before the foreground,
    the foreground drawn exactly once with the adjustment filter in force, the
    tint after it and only with a tint colour, the outline only during a crop.
   */
  lemma RenderLayers(sc: Scene)
    requires sc.hasForeground
    ensures var cmds := RenderFinal(sc);
            && (exists i :: 0 < i < |cmds| && cmds[i] == DrawForeground && cmds[i - 1] == SetFilter(FilterList(sc.adj)))
            && (forall i, j :: 0 <= i < |cmds| && 0 <= j < |cmds| && cmds[i] == DrawForeground && cmds[j] == DrawForeground ==> i == j)
            && (forall i, j :: 0 <= i < |cmds| && 0 <= j < |cmds| && IsBackground(cmds[i]) && cmds[j] == DrawForeground ==> i < j)
            && (forall i, j :: 0 <= i < |cmds| && 0 <= j < |cmds| && cmds[i].TintAtop? && cmds[j] == DrawForeground ==> j < i)
            && ((exists i :: 0 <= i < |cmds| && cmds[i].TintAtop?) <==> sc.adj.tintColor.Some?)
            && ((exists i :: 0 <= i < |cmds| && cmds[i].OutlineCrop?) <==> sc.cropRect.Some?)
  {
    var cmds := RenderFinal(sc);
    var f := 3 + |BackgroundCmds(sc)|;
    RenderPositions(sc);
    assert 0 < f < |cmds| && cmds[f] == DrawForeground;
    if sc.adj.tintColor.Some? {
      assert cmds[f + 1].TintAtop?;
    }
    if sc.cropRect.Some? {
      assert cmds[|cmds| - 1].OutlineCrop?;
    }
  }

  /**
    The snapshot a crop is cut from: the same transform, background and
    filtered foreground as `RenderFinal`, drawn on a fresh canvas, but without
    the tint step and without the crop outline.
   */
  function CropSnapshot(sc: Scene): (cmds: seq<Cmd>)
    ensures forall i :: 0 <= i < |cmds| ==> !cmds[i].TintAtop? && !cmds[i].OutlineCrop? && !cmds[i].ClearSurface?
  {
    [BeginView(sc.view, sc.width, sc.height)] + BackgroundCmds(sc)
      + [SetFilter(FilterList(sc.adj)), DrawForeground, ClearFilter, EndView]
  }

  /**
    The crop snapshot is what the screen would show for the same scene with
    no tint colour and no crop outline (a fresh canvas needs no clearing).
   */
  lemma SnapshotIsRenderWithoutTint(sc: Scene)
    requires sc.hasForeground
    ensures RenderFinal(sc.(adj := sc.adj.(tintColor := None), cropRect := None))
            == [ClearSurface(sc.width, sc.height)] + CropSnapshot(sc)
  {
    var plain := sc.(adj := sc.adj.(tintColor := None), cropRect := None);
    BackgroundFrame(plain, sc);
    assert FilterList(plain.adj) == FilterList(sc.adj);
  }

  /** With a tint colour set, the snapshot differs from what is on screen. */
  lemma SnapshotDropsTint(sc: Scene)
    requires sc.hasForeground && sc.adj.tintColor.Some?
    ensures [ClearSurface(sc.width, sc.height)] + CropSnapshot(sc) != RenderFinal(sc)
  {
    var r := RenderFinal(sc);
    RenderLayers(sc);
    var s := [ClearSurface(sc.width, sc.height)] + CropSnapshot(sc);
    assert forall k :: 0 <= k < |s| ==> !s[k].TintAtop? by {
      forall k | 0 <= k < |s|
        ensures !s[k].TintAtop?
      {
        if k > 0 {
          assert s[k] == CropSnapshot(sc)[k - 1];
        }
      }
    }
  }
}
