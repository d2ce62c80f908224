/**
 * The image editor's view and selection state: zoom factor, pan offset, the pointer position of a drag in
 * progress, whether region selection is on, and the selected rectangle.  Pointer positions are client
 * coordinates; the canvas position of the preview is passed in as `origin` (its bounding box's top-left).
 */
module EditorView {
  import opened Wrappers

  /** A point or a displacement in client or preview-canvas pixels. */
  datatype Point = Point(x: real, y: real)

  /** A selected rectangle in preview-canvas pixels: an anchor and a signed extent. */
  datatype Selection = Selection(x: real, y: real, w: real, h: real)

  /** The "Zoom in" button multiplies the zoom by 1.1. */
  function ZoomedIn(s: real): real {
    s * 1.1
  }

  /** The "Zoom out" button divides the zoom by 1.1. */
  function ZoomedOut(s: real): real {
    s / 1.1
  }

  /** With exact arithmetic, zooming in and then out (or out and then in) restores the zoom. */
  lemma ZoomRoundTrip(s: real)
    ensures ZoomedOut(ZoomedIn(s)) == s && ZoomedIn(ZoomedOut(s)) == s
    ensures s > 0.0 ==> ZoomedOut(s) < s < ZoomedIn(s)
  {
  }

  /** `toCanvasCoords`: a client position relative to the preview canvas's top-left corner. */
  function ToCanvas(client: Point, origin: Point): Point {
    Point(client.x - origin.x, client.y - origin.y)
  }

  /**
   * The pan offset after the pointer, pressed at `start`, moved through the positions `path`: each move
   * adds the distance from the previous position.
   */
  function Panned(offset: Point, start: Point, path: seq<Point>): Point
    decreases |path|
  {
    if path == [] then offset
    else Panned(Point(offset.x + (path[0].x - start.x), offset.y + (path[0].y - start.y)), path[0], path[1..])
  }

  /** However the pointer wanders, a pan moves the image by the final position minus the starting one. */
  lemma {:induction false} PannedTelescopes(offset: Point, start: Point, path: seq<Point>)
    requires path != []
    ensures Panned(offset, start, path) ==
      Point(offset.x + (path[|path| - 1].x - start.x), offset.y + (path[|path| - 1].y - start.y))
    decreases |path|
  {
    if |path| > 1 {
      PannedTelescopes(Point(offset.x + (path[0].x - start.x), offset.y + (path[0].y - start.y)), path[0], path[1..]);
    }
  }

  /** Where `draw` puts the image: top-left corner and drawn size. */
  datatype Placement = Placement(dx: real, dy: real, drawW: real, drawH: real)

  /**
   * The `draw` fit arithmetic for a W-by-H preview and an iw-by-ih image: the contain scale
   * `min(W / iw, H / ih)` times the zoom, centred and then shifted by the pan offset.
   */
  function Fit(W: real, H: real, iw: real, ih: real, scale: real, offset: Point): (p: Placement)
    requires iw > 0.0 && ih > 0.0
    ensures p.drawW * ih == p.drawH * iw
    ensures p.dx + p.drawW / 2.0 == W / 2.0 + offset.x && p.dy + p.drawH / 2.0 == H / 2.0 + offset.y
  {
    var s := ContainScale(W, H, iw, ih) * scale;
    Placement((W - iw * s) / 2.0 + offset.x, (H - ih * s) / 2.0 + offset.y, iw * s, ih * s)
  }

  /** The contain scale `min(W / iw, H / ih)`. */
  function ContainScale(W: real, H: real, iw: real, ih: real): real
    requires iw > 0.0 && ih > 0.0
  {
    if W / iw <= H / ih then W / iw else H / ih
  }

  lemma ContainScalePositive(W: real, H: real, iw: real, ih: real)
    requires W > 0.0 && H > 0.0 && iw > 0.0 && ih > 0.0
    ensures ContainScale(W, H, iw, ih) > 0.0
  {
    assert W / iw > 0.0 && H / ih > 0.0;
  }

  /** At zoom 1 without panning the image fits inside the preview and fills it in at least one direction. */
  lemma FitContains(W: real, H: real, iw: real, ih: real)
    requires W > 0.0 && H > 0.0 && iw > 0.0 && ih > 0.0
    ensures var p := Fit(W, H, iw, ih, 1.0, Point(0.0, 0.0));
      && 0.0 <= p.dx && p.dx + p.drawW <= W && 0.0 <= p.dy && p.dy + p.drawH <= H
      && (p.drawW == W || p.drawH == H)
  {
    if W / iw <= H / ih {
      assert iw * (W / iw) == W;
      assert ih * (W / iw) <= ih * (H / ih) == H;
    } else {
      assert ih * (H / ih) == H;
      assert iw * (H / ih) <= iw * (W / iw) == W;
    }
  }

  /** The editor's view and selection state and its event handlers. */
  class Editor {
    var scale: real
    var offset: Point
    var drag: Option<Point>
    var selecting: bool
    var rect: Option<Selection>

    /** The state when the dialog mounts. */
    constructor ()
      ensures scale == 1.0 && offset == Point(0.0, 0.0) && drag == None && !selecting && rect == None
    {
      scale, offset, drag, selecting, rect := 1.0, Point(0.0, 0.0), None, false, None;
    }

    /** `resetView`: zoom 1, no pan, no selection. */
    method ResetView()
      modifies this
      ensures scale == 1.0 && offset == Point(0.0, 0.0) && rect == None
      ensures drag == old(drag) && selecting == old(selecting)
    {
      scale, offset, rect := 1.0, Point(0.0, 0.0), None;
    }

    method ZoomIn()
      modifies this
      ensures scale == ZoomedIn(old(scale))
      ensures offset == old(offset) && drag == old(drag) && selecting == old(selecting) && rect == old(rect)
    {
      scale := ZoomedIn(scale);
    }

    method ZoomOut()
      modifies this
      ensures scale == ZoomedOut(old(scale))
      ensures offset == old(offset) && drag == old(drag) && selecting == old(selecting) && rect == old(rect)
    {
      scale := ZoomedOut(scale);
    }

    /** The "Region" button. */
    method ToggleSelecting()
      modifies this
      ensures selecting == !old(selecting)
      ensures scale == old(scale) && offset == old(offset) && drag == old(drag) && rect == old(rect)
    {
      selecting := !selecting;
    }

    /** The "Clear" button. */
    method ClearRect()
      modifies this
      ensures rect == None
      ensures scale == old(scale) && offset == old(offset) && drag == old(drag) && selecting == old(selecting)
    {
      rect := None;
    }

    /** Pointer down: always starts a drag; in selection mode it also anchors an empty rectangle at the pointer. */
    method MouseDown(client: Point, origin: Point)
      modifies this
      ensures drag == Some(client)
      ensures rect == if selecting then Some(Selection(client.x - origin.x, client.y - origin.y, 0.0, 0.0)) else old(rect)
      ensures scale == old(scale) && offset == old(offset) && selecting == old(selecting)
    {
      if !selecting {
        drag := Some(client);
        return;
      }
      var p := ToCanvas(client, origin);
      rect := Some(Selection(p.x, p.y, 0.0, 0.0));
      drag := Some(client);
    }

    /**
     * Pointer move: nothing without a drag; when panning, the offset grows by the pointer's displacement and
     * the drag follows the pointer; when selecting, the extent becomes the pointer minus the anchor.
     */
    method MouseMove(client: Point, origin: Point)
      modifies this
      ensures old(drag).None? ==>
        offset == old(offset) && drag == old(drag) && rect == old(rect)
      ensures old(drag).Some? && !selecting ==>
        offset == Panned(old(offset), old(drag).value, [client]) && drag == Some(client) && rect == old(rect)
      ensures old(drag).Some? && selecting ==>
        offset == old(offset) && drag == old(drag)
        && rect == match old(rect)
                   case None => None
                   case Some(r) => Some(r.(w := client.x - origin.x - r.x, h := client.y - origin.y - r.y))
      ensures scale == old(scale) && selecting == old(selecting)
    {
      if drag.None? {
        return;
      }
      if !selecting {
        var start := drag.value;
        offset := Point(offset.x + (client.x - start.x), offset.y + (client.y - start.y));
        drag := Some(client);
      } else {
        var p := ToCanvas(client, origin);
        match rect {
          case None =>
          case Some(r) => rect := Some(r.(w := p.x - r.x, h := p.y - r.y));
        }
      }
    }

    /** Pointer up ends the drag. */
    method MouseUp()
      modifies this
      ensures drag == None
      ensures scale == old(scale) && offset == old(offset) && selecting == old(selecting) && rect == old(rect)
    {
      drag := None;
    }
  }
}
