/** The single-document editor's zoom buttons: each click moves the preview's font size
    by 10 percentage points, within [50, 200]. */
module Editor {
  import opened AppModel
  import opened Geometry

  /** The size after a click on "zoom in": 10 more, but never above 200. */
  function ZoomedIn(size: int): (r: int)
    ensures r <= MaxFontSize
    ensures size <= MaxFontSize ==> size <= r <= size + ZoomStep
    ensures r == size + ZoomStep || r == MaxFontSize
    ensures MinFontSize <= size <= MaxFontSize ==> MinFontSize <= r <= MaxFontSize
    ensures size % ZoomStep == 0 ==> r % ZoomStep == 0
  {
    Min(MaxFontSize, size + ZoomStep)
  }

  /** The size after a click on "zoom out": 10 less, but never below 50. */
  function ZoomedOut(size: int): (r: int)
    ensures r >= MinFontSize
    ensures size >= MinFontSize ==> size - ZoomStep <= r <= size
    ensures r == size - ZoomStep || r == MinFontSize
    ensures MinFontSize <= size <= MaxFontSize ==> MinFontSize <= r <= MaxFontSize
    ensures size % ZoomStep == 0 ==> r % ZoomStep == 0
  {
    Max(MinFontSize, size - ZoomStep)
  }

  /** Away from the upper bound, zooming out undoes zooming in. */
  lemma ZoomOutUndoesZoomIn(size: int)
    requires MinFontSize <= size <= MaxFontSize - ZoomStep
    ensures ZoomedOut(ZoomedIn(size)) == size
  {
  }

  /** Away from the lower bound, zooming in undoes zooming out. */
  lemma ZoomInUndoesZoomOut(size: int)
    requires MinFontSize + ZoomStep <= size <= MaxFontSize
    ensures ZoomedIn(ZoomedOut(size)) == size
  {
  }

  /** The "zoom in" click handler. */
  method ZoomIn(app: AppState)
    requires app.Valid()
    modifies app`editorFontSize
    ensures app.Valid()
    ensures app.editorFontSize == ZoomedIn(old(app.editorFontSize))
  {
    app.editorFontSize := Min(MaxFontSize, app.editorFontSize + ZoomStep);
  }

  /** The "zoom out" click handler. */
  method ZoomOut(app: AppState)
    requires app.Valid()
    modifies app`editorFontSize
    ensures app.Valid()
    ensures app.editorFontSize == ZoomedOut(old(app.editorFontSize))
  {
    app.editorFontSize := Max(MinFontSize, app.editorFontSize - ZoomStep);
  }
}
