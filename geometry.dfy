/** The integer geometry of a floating window: the clamps applied after a drag, after a
    resize, on creation and when the browser window is resized. Positions and sizes are
    pixels; the container is the workspace element's bounding box. */
module Geometry {
  import opened Common

  /** A window's style: `left`, `top`, `width`, `height` in pixels. */
  datatype Rect = Rect(left: int, top: int, width: int, height: int)

  /** The size of the workspace container. */
  datatype Container = Container(width: int, height: int)

  datatype Size = Size(width: int, height: int)
  datatype Position = Position(left: int, top: int)

  const MinWidth: int := 300
  const MinHeight: int := 200
  const DefaultWidth: int := 400
  const DefaultHeight: int := 300
  /** How much of a window must stay visible horizontally, so it can be dragged back. */
  const MinVisible: int := 50
  /** How much of a window must stay visible vertically: its title bar. */
  const TitleBarHeight: int := 40

  function Min(a: int, b: int): int { if a <= b then a else b }
  function Max(a: int, b: int): int { if a >= b then a else b }

  /** JavaScript's `parseInt(style) || fallback`: a `NaN` (None) and a zero both give the
      fallback, any other parsed integer is kept. */
  function OrDefault(parsed: Option<int>, fallback: int): (v: int)
    ensures parsed.Some? && parsed.value != 0 ==> v == parsed.value
    ensures parsed.None? || parsed.value == 0 ==> v == fallback
  {
    if parsed.Some? && parsed.value != 0 then parsed.value else fallback
  }

  /** `constrainWindowSize`: the parsed width and height (400 and 300 when unparsable or
      zero) are capped by the container and then raised to at least 300 by 200. */
  function ConstrainedSize(width: Option<int>, height: Option<int>, c: Container): (s: Size)
    ensures s.width >= MinWidth && s.height >= MinHeight
    ensures c.width >= MinWidth ==> s.width <= c.width
    ensures c.height >= MinHeight ==> s.height <= c.height
    ensures var w := OrDefault(width, DefaultWidth);
      (MinWidth <= w <= c.width ==> s.width == w) &&
      (w > c.width && c.width >= MinWidth ==> s.width == c.width) &&
      (w <= MinWidth || c.width <= MinWidth ==> s.width == MinWidth)
    ensures var h := OrDefault(height, DefaultHeight);
      (MinHeight <= h <= c.height ==> s.height == h) &&
      (h > c.height && c.height >= MinHeight ==> s.height == c.height) &&
      (h <= MinHeight || c.height <= MinHeight ==> s.height == MinHeight)
  {
    var w := OrDefault(width, DefaultWidth);
    var h := OrDefault(height, DefaultHeight);
    Size(Max(MinWidth, Min(w, c.width)), Max(MinHeight, Min(h, c.height)))
  }

  /** `constrainWindowPosition`: the parsed left and top (0 when unparsable) are clamped in
      the order the source applies them: left up to `50 - windowWidth`, then left down to
      `containerWidth - 50`, then top up to 0, then top down to `max(0, containerHeight - 40)`.
      The window's height plays no part. */
  function ConstrainedPosition(left: Option<int>, top: Option<int>, windowWidth: int, c: Container): (p: Position)
    ensures 0 <= p.top <= Max(0, c.height - TitleBarHeight)
    ensures p.left <= c.width - MinVisible
    ensures MinVisible - windowWidth <= c.width - MinVisible ==> p.left >= MinVisible - windowWidth
    ensures MinVisible - windowWidth > c.width - MinVisible ==> p.left == c.width - MinVisible
    ensures var l := OrDefault(left, 0);
      MinVisible - windowWidth <= l <= c.width - MinVisible ==> p.left == l
    ensures var t := OrDefault(top, 0);
      0 <= t <= c.height - TitleBarHeight ==> p.top == t
    ensures var l := OrDefault(left, 0);
      l < MinVisible - windowWidth <= c.width - MinVisible ==> p.left == MinVisible - windowWidth
    ensures OrDefault(left, 0) > c.width - MinVisible ==> p.left == c.width - MinVisible
    ensures OrDefault(top, 0) < 0 ==> p.top == 0
    ensures OrDefault(top, 0) > c.height - TitleBarHeight ==> p.top == Max(0, c.height - TitleBarHeight)
  {
    var l0 := OrDefault(left, 0);
    var l1 := if l0 < MinVisible - windowWidth then MinVisible - windowWidth else l0;
    var l2 := if l1 > c.width - MinVisible then c.width - MinVisible else l1;
    var t0 := OrDefault(top, 0);
    var t1 := if t0 < 0 then 0 else t0;
    var t2 := if t1 > c.height - TitleBarHeight then Max(0, c.height - TitleBarHeight) else t1;
    Position(l2, t2)
  }

  /** Applying the size clamp to its own output changes nothing. */
  lemma ConstrainedSizeIdempotent(width: Option<int>, height: Option<int>, c: Container)
    ensures var s := ConstrainedSize(width, height, c);
      ConstrainedSize(Some(s.width), Some(s.height), c) == s
  {
  }

  /** Applying the position clamp to its own output, for the same window width, changes nothing. */
  lemma ConstrainedPositionIdempotent(left: Option<int>, top: Option<int>, windowWidth: int, c: Container)
    ensures var p := ConstrainedPosition(left, top, windowWidth, c);
      ConstrainedPosition(Some(p.left), Some(p.top), windowWidth, c) == p
  {
  }

  /** The size clamp on a stored rectangle: the stored width and height are read back as
      the integers written, the position is untouched. */
  function FitSize(r: Rect, c: Container): (r': Rect)
    ensures r'.left == r.left && r'.top == r.top
    ensures r'.width >= MinWidth && r'.height >= MinHeight
  {
    var s := ConstrainedSize(Some(r.width), Some(r.height), c);
    r.(width := s.width, height := s.height)
  }

  /** The position clamp on a stored rectangle, using the stored width as the window's
      width; the size is untouched. */
  function FitPosition(r: Rect, c: Container): (r': Rect)
    ensures r'.width == r.width && r'.height == r.height
    ensures 0 <= r'.top <= Max(0, c.height - TitleBarHeight)
    ensures r'.left <= c.width - MinVisible
  {
    var p := ConstrainedPosition(Some(r.left), Some(r.top), r.width, c);
    r.(left := p.left, top := p.top)
  }

  /** Size first, then position: what creating a window, ending a resize and resizing the
      browser window apply. */
  function Fit(r: Rect, c: Container): (r': Rect)
    ensures r'.width >= MinWidth && r'.height >= MinHeight
    ensures 0 <= r'.top <= Max(0, c.height - TitleBarHeight)
    ensures r'.left <= c.width - MinVisible
  {
    FitPosition(FitSize(r, c), c)
  }

  /** A fitted rectangle stays as it is when fitted again. */
  lemma FitIdempotent(r: Rect, c: Container)
    ensures Fit(Fit(r, c), c) == Fit(r, c)
  {
    var sized := FitSize(r, c);
    ConstrainedSizeIdempotent(Some(r.width), Some(r.height), c);
    assert FitSize(Fit(r, c), c) == Fit(r, c);
    ConstrainedPositionIdempotent(Some(sized.left), Some(sized.top), sized.width, c);
  }
}
