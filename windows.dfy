/** The multi-window workspace (`WindowMode`): floating windows kept in `AppState.windows`,
    created, closed, raised, renamed, dragged, resized, switched between editor and preview,
    and imported from a layout file. */
module Windows {
  import opened Common
  import opened Strings
  import opened Geometry
  import opened AppModel
  import opened WindowNames

  /** One coordinate of a layout entry, as far as `(v || fallback) + 'px'` can tell:
      `Missing` is a falsy value (absent, `null`, `0`, `""`); `Number(v)` a value whose text
      is the integer `v` (a non-zero number, or a numeric string such as `"0"`); `NonNumeric`
      any other truthy value, whose text followed by `px` is not a CSS length. */
  datatype Coord = Missing | Number(value: int) | NonNumeric

  /** The optional `data` of `createWindow`, as read from a layout file. An empty name and
      an empty text stand for missing ones. `createWindow()` without data is `NoData`. */
  datatype WindowData = WindowData(name: string, x: Coord, y: Coord,
                                   width: Coord, height: Coord, latex: string)

  const NoData: WindowData := WindowData([], Missing, Missing, Missing, Missing, [])

  /** Where a new window starts; each open window shifts the default 30 pixels down and right. */
  const CascadeOrigin: int := 50
  const CascadeStep: int := 30

  /** The offset the clamp reads back from `left` or `top` once `(v || fallback) + 'px'` was
      written: any integer is a valid offset; a rejected value leaves the style empty, which
      the clamp reads as `NaN || 0`. */
  function StyleOffset(v: Coord, fallback: int): int
  {
    match v
    case Missing => fallback
    case Number(n) => n
    case NonNumeric => 0
  }

  /** The size the clamp reads back from `width` or `height`: a negative length is rejected
      like a non-numeric one, and an empty style reads as the clamp's own default, which is
      the same `fallback`. */
  function StyleExtent(v: Coord, fallback: int): int
  {
    if v.Number? && v.value >= 0 then v.value else fallback
  }

  /** The rectangle the clamps find on the new element: `data.x || 50 + 30n`, and so on,
      where `n` is the number of open windows, as the browser accepted it. */
  function InitialRect(data: WindowData, count: nat): (r: Rect)
    ensures data.x.Missing? ==> r.left == CascadeOrigin + count * CascadeStep
    ensures data.x.Number? ==> r.left == data.x.value
    ensures data.x.NonNumeric? ==> r.left == 0
    ensures data.y.Missing? ==> r.top == CascadeOrigin + count * CascadeStep
    ensures data.y.Number? ==> r.top == data.y.value
    ensures data.y.NonNumeric? ==> r.top == 0
    ensures data.width.Number? && data.width.value >= 0 ==> r.width == data.width.value
    ensures !(data.width.Number? && data.width.value >= 0) ==> r.width == DefaultWidth
    ensures data.height.Number? && data.height.value >= 0 ==> r.height == data.height.value
    ensures !(data.height.Number? && data.height.value >= 0) ==> r.height == DefaultHeight
  {
    Rect(StyleOffset(data.x, CascadeOrigin + count * CascadeStep),
         StyleOffset(data.y, CascadeOrigin + count * CascadeStep),
         StyleExtent(data.width, DefaultWidth),
         StyleExtent(data.height, DefaultHeight))
  }

  /** Every window showing its preview tab (`preview` true) or its editor tab. */
  function SetAllViews(windows: map<WindowId, Window>, preview: bool): map<WindowId, Window>
  {
    map id | id in windows :: windows[id].(preview := preview)
  }

  /** The views recorded when temporary preview starts: true for a window showing its preview. */
  function SaveViews(windows: map<WindowId, Window>): map<WindowId, bool>
  {
    map id | id in windows :: windows[id].preview
  }

  /** One window after temporary preview ends: the saved view if one was saved for it. */
  function RestoreView(saved: map<WindowId, bool>, id: WindowId, w: Window): Window
  {
    if id in saved then w.(preview := saved[id]) else w
  }

  function RestoreViews(windows: map<WindowId, Window>, saved: map<WindowId, bool>): map<WindowId, Window>
  {
    map id | id in windows :: RestoreView(saved, id, windows[id])
  }

  /** Every window's rectangle clamped, size first: the browser-resize handler. */
  function FitAll(windows: map<WindowId, Window>, c: Container): map<WindowId, Window>
  {
    map id | id in windows :: windows[id].(rect := Fit(windows[id].rect, c))
  }

  /** The next prefix of a sequence is the current one with one more element. */
  lemma PrefixSnoc<T>(s: seq<T>, k: nat)
    requires k < |s|
    ensures s[..k + 1] == s[..k] + [s[k]]
  {
  }

  /** Storing twice under one key keeps only the second value. */
  lemma UpdateTwice<K, V>(m: map<K, V>, k: K, a: V, b: V)
    ensures m[k := a][k := b] == m[k := b]
  {
  }

  /** Turning temporary preview on and straight off again gives back every window as it was. */
  lemma TempPreviewRoundTrip(windows: map<WindowId, Window>)
    ensures RestoreViews(SetAllViews(windows, true), SaveViews(windows)) == windows
  {
    var r := RestoreViews(SetAllViews(windows, true), SaveViews(windows));
    assert r.Keys == windows.Keys;
    forall id | id in windows ensures r[id] == windows[id] { }
  }

  /** Whatever happened in between, ending temporary preview puts each window that was open
      when it started back to the view it had then, leaves everything else about it as it is
      now, and leaves windows opened in between untouched. */
  lemma TempPreviewRestoresSurvivors(before: map<WindowId, Window>, during: map<WindowId, Window>, id: WindowId)
    requires id in during
    ensures var after := RestoreViews(during, SaveViews(before));
      && after.Keys == during.Keys
      && (id in before ==> after[id] == during[id].(preview := before[id].preview))
      && (id !in before ==> after[id] == during[id])
  {
  }

  /** Clamping every window twice is clamping once. */
  lemma FitAllIdempotent(windows: map<WindowId, Window>, c: Container)
    ensures FitAll(FitAll(windows, c), c) == FitAll(windows, c)
  {
    var once := FitAll(windows, c);
    var twice := FitAll(once, c);
    forall id | id in windows ensures twice[id] == once[id] {
      FitIdempotent(windows[id].rect, c);
    }
    assert twice.Keys == once.Keys;
  }

  /** A rename that no other window's name clashes with keeps the names pairwise distinct. */
  lemma RenameKeepsNamesUnique(windows: map<WindowId, Window>, id: WindowId, name: string)
    requires UniqueNames(windows) && id in windows
    requires forall o :: o in windows && o != id ==> windows[o].name != name
    ensures UniqueNames(windows[id := windows[id].(name := name)])
  {
  }

  /** Adding a window under a new id with a name no window has keeps the names pairwise distinct. */
  lemma AddKeepsNamesUnique(windows: map<WindowId, Window>, id: WindowId, w: Window)
    requires UniqueNames(windows) && id !in windows && w.name !in Names(windows)
    ensures UniqueNames(windows[id := w])
  {
  }

  /** The ids from `lo` up to but not including `hi`. */
  function IdRange(lo: nat, hi: nat): (ids: set<WindowId>)
    ensures forall i :: i in ids <==> lo <= i < hi
    decreases hi
  {
    if lo >= hi then {} else IdRange(lo, hi - 1) + {hi - 1}
  }

  /** How a layout file reads: not JSON at all, JSON without a `windows` list, or the list. */
  datatype LayoutFile = Unparsable | NoWindowList | WindowList(windows: seq<WindowData>)

  /** `after` is `before`, unchanged, plus one window per entry, under the consecutive ids
      from `start`: the `j`-th holds its entry's LaTeX source, shows its editor tab, got the
      z-index counter's value `z0 + 2 * (j + 1)` (the counter started at `z0`), and has the
      rectangle `rects[j]`. */
  ghost predicate Created(before: map<WindowId, Window>, after: map<WindowId, Window>, start: nat,
                          z0: int, entries: seq<WindowData>, rects: seq<Rect>)
  {
    && CreatedIds(before, after, start, |entries|)
    && CreatedViews(after, start, z0, entries)
    && |rects| == |entries| && RectsFrom(after, start, rects)
  }

  /** The ids and the untouched windows. */
  ghost predicate CreatedIds(before: map<WindowId, Window>, after: map<WindowId, Window>, start: nat, n: nat)
  {
    && after.Keys == before.Keys + IdRange(start, start + n)
    && (forall o {:trigger before[o]} :: o in before ==> o in after && after[o] == before[o])
  }

  /** The new windows' text, tab and z-index. */
  ghost predicate CreatedViews(after: map<WindowId, Window>, start: nat, z0: int, entries: seq<WindowData>)
  {
    forall j :: 0 <= j < |entries| ==> ViewAt(after, start + j, entries[j], z0 + 2 * (j + 1))
  }

  /** The window `id` holds the entry's text, shows its editor tab and has z-index `z`. */
  ghost predicate ViewAt(windows: map<WindowId, Window>, id: WindowId, e: WindowData, z: int)
  {
    id in windows && windows[id].latex == e.latex && !windows[id].preview && windows[id].z == z
  }

  /** The windows under the ids from `start` have the rectangles `rs`, in order. */
  ghost predicate RectsFrom(after: map<WindowId, Window>, start: nat, rs: seq<Rect>)
  {
    forall j :: 0 <= j < |rs| ==> RectAt(after, start + j, rs[j])
  }

  /** The window `id` has the rectangle `r`. */
  ghost predicate RectAt(windows: map<WindowId, Window>, id: WindowId, r: Rect)
  {
    id in windows && windows[id].rect == r
  }

  /** The clamped starting rectangles of the entries created one after another, the first
      with `count` windows already open. */
  ghost function Placements(entries: seq<WindowData>, count: nat, c: Container): (rects: seq<Rect>)
    ensures |rects| == |entries|
  {
    if entries == [] then []
    else Placements(entries[..|entries| - 1], count, c) + [Fit(InitialRect(entries[|entries| - 1], count + |entries| - 1), c)]
  }

  /** The `j`-th placement is the clamped starting rectangle of the `j`-th entry with
      `count + j` windows open. */
  lemma {:induction false} PlacementAt(entries: seq<WindowData>, count: nat, c: Container, j: nat)
    requires j < |entries|
    ensures Placements(entries, count, c)[j] == Fit(InitialRect(entries[j], count + j), c)
    decreases |entries|
  {
    var init := entries[..|entries| - 1];
    if j < |init| {
      PlacementAt(init, count, c, j);
      assert init[j] == entries[j];
    }
  }

  /** Creating one more entry appends its rectangle to the placements. */
  lemma PlacementsSnoc(entries: seq<WindowData>, e: WindowData, count: nat, open: nat, c: Container)
    requires open == count + |entries|
    ensures Placements(entries + [e], count, c) == Placements(entries, count, c) + [Fit(InitialRect(e, open), c)]
  {
    assert (entries + [e])[..|entries|] == entries;
  }

  lemma CreatedIdsExtend(base: map<WindowId, Window>, before: map<WindowId, Window>, after: map<WindowId, Window>,
                         start: nat, n: nat, id: WindowId)
    requires CreatedIds(base, before, start, n)
    requires id == start + n && id !in before
    requires after.Keys == before.Keys + {id}
    requires forall o :: o in before ==> after[o] == before[o]
    ensures CreatedIds(base, after, start, n + 1)
  {
    assert IdRange(start, start + n + 1) == IdRange(start, start + n) + {id};
  }

  lemma CreatedViewsExtend(before: map<WindowId, Window>, after: map<WindowId, Window>, start: nat, z0: int,
                           entries: seq<WindowData>, e: WindowData, id: WindowId)
    requires CreatedViews(before, start, z0, entries)
    requires id == start + |entries| && id in after
    requires ViewAt(after, id, e, z0 + 2 * (|entries| + 1))
    requires forall o :: o in before ==> o in after && after[o] == before[o]
    ensures CreatedViews(after, start, z0, entries + [e])
  {
    forall j | 0 <= j < |entries + [e]|
      ensures ViewAt(after, start + j, (entries + [e])[j], z0 + 2 * (j + 1))
    {
      if j < |entries| {
        assert (entries + [e])[j] == entries[j];
        assert ViewAt(before, start + j, entries[j], z0 + 2 * (j + 1));
      }
    }
  }

  lemma RectsFromExtend(before: map<WindowId, Window>, after: map<WindowId, Window>, start: nat,
                        rs: seq<Rect>, r: Rect)
    requires RectsFrom(before, start, rs)
    requires RectAt(after, start + |rs|, r)
    requires forall o :: o in before ==> o in after && after[o] == before[o]
    ensures RectsFrom(after, start, rs + [r])
  {
    forall j | 0 <= j < |rs + [r]|
      ensures RectAt(after, start + j, (rs + [r])[j])
    {
      if j < |rs| {
        assert (rs + [r])[j] == rs[j];
        assert RectAt(before, start + j, rs[j]);
      }
    }
  }

  /** A single window added under a fresh id is `Created` for its one entry. */
  lemma CreatedOne(before: map<WindowId, Window>, after: map<WindowId, Window>, id: WindowId, z0: int,
                   e: WindowData, r: Rect)
    requires id !in before && after.Keys == before.Keys + {id}
    requires forall o :: o in before ==> after[o] == before[o]
    requires after[id].latex == e.latex && !after[id].preview && after[id].z == z0 + 2
    requires after[id].rect == r
    ensures Created(before, after, id, z0, [e], [r])
  {
    assert IdRange(id, id + 1) == {id};
    assert ViewAt(after, id + 0, [e][0], z0 + 2 * (0 + 1));
    assert RectAt(after, id + 0, [r][0]);
  }

  /** Windows created for `more` after windows created for `done` are created for `done + more`. */
  lemma CreatedCompose(base: map<WindowId, Window>, mid: map<WindowId, Window>, after: map<WindowId, Window>,
                       start: nat, z0: int, done: seq<WindowData>, rects: seq<Rect>,
                       z1: int, e: WindowData, r: Rect, id: WindowId)
    requires Created(base, mid, start, z0, done, rects)
    requires id == start + |done| && id !in mid && z1 == z0 + 2 * |done|
    requires Created(mid, after, id, z1, [e], [r])
    ensures Created(base, after, start, z0, done + [e], rects + [r])
  {
    assert IdRange(id, id + 1) == {id};
    assert ViewAt(after, id + 0, [e][0], z1 + 2 * (0 + 1));
    assert RectAt(after, id + 0, [r][0]);
    CreatedIdsExtend(base, mid, after, start, |done|, id);
    CreatedViewsExtend(mid, after, start, z0, done, e, id);
    RectsFromExtend(mid, after, start, rects, r);
  }

  /** The window `CreateWindow` adds for the next entry `e` extends `Created` by that entry,
      with the placement that follows the earlier ones. */
  lemma CreatedNext(base: map<WindowId, Window>, before: map<WindowId, Window>, after: map<WindowId, Window>,
                    start: nat, z0: int, done: seq<WindowData>, e: WindowData, id: WindowId, c: Container)
    requires Created(base, before, start, z0, done, Placements(done, |base|, c)) && |before| == |base| + |done|
    requires id == start + |done| && id !in before
    requires after.Keys == before.Keys + {id}
    requires forall o :: o in before ==> after[o] == before[o]
    requires after[id].latex == e.latex && !after[id].preview && after[id].z == z0 + 2 * |done| + 2
    requires after[id].rect == Fit(InitialRect(e, |before|), c)
    ensures Created(base, after, start, z0, done + [e], Placements(done + [e], |base|, c))
  {
    var rects, r := Placements(done, |base|, c), after[id].rect;
    assert Placements(done + [e], |base|, c) == rects + [r] by {
      PlacementsSnoc(done, e, |base|, |before|, c);
    }
    CreatedOne(before, after, id, z0 + 2 * |done|, e, r);
    CreatedCompose(base, before, after, start, z0, done, rects, z0 + 2 * |done|, e, r, id);
  }

  class WindowMode {
    const app: AppState
    var tempPreviewMode: bool
    /** The views saved when temporary preview started, by window id. */
    var tempPreviewStates: map<WindowId, bool>

    /** The application invariant, plus: views are saved only while temporary preview is on,
        and only for ids already handed out (so a window created later has none). */
    ghost predicate Valid()
      reads this, app
    {
      && app.Valid()
      && (forall id :: id in tempPreviewStates ==> id < app.nextWindowId)
      && (!tempPreviewMode ==> tempPreviewStates == map[])
    }

    constructor (app: AppState)
      requires app.Valid()
      ensures Valid() && this.app == app
      ensures !tempPreviewMode && tempPreviewStates == map[]
    {
      this.app := app;
      tempPreviewMode := false;
      tempPreviewStates := map[];
    }

    /** `constrainWindowSize` on an open window. */
    method ConstrainWindowSize(id: WindowId, c: Container)
      requires Valid() && id in app.windows
      modifies app`windows
      ensures Valid()
      ensures app.windows == old(app.windows)[id := old(app.windows)[id].(rect := FitSize(old(app.windows)[id].rect, c))]
    {
      var w := app.windows[id];
      var size := ConstrainedSize(Some(w.rect.width), Some(w.rect.height), c);
      app.windows := app.windows[id := w.(rect := w.rect.(width := size.width, height := size.height))];
    }

    /** `constrainWindowPosition` on an open window. */
    method ConstrainWindowPosition(id: WindowId, c: Container)
      requires Valid() && id in app.windows
      modifies app`windows
      ensures Valid()
      ensures app.windows == old(app.windows)[id := old(app.windows)[id].(rect := FitPosition(old(app.windows)[id].rect, c))]
    {
      var w := app.windows[id];
      var pos := ConstrainedPosition(Some(w.rect.left), Some(w.rect.top), w.rect.width, c);
      app.windows := app.windows[id := w.(rect := w.rect.(left := pos.left, top := pos.top))];
    }

    /** `constrainAllWindows`: clamps every open window, size first. */
    method ConstrainAllWindows(c: Container)
      requires Valid()
      modifies app`windows
      ensures Valid()
      ensures app.windows == FitAll(old(app.windows), c)
    {
      var pending := app.windows.Keys;
      while pending != {}
        invariant Valid()
        invariant app.windows.Keys == old(app.windows).Keys && pending <= app.windows.Keys
        invariant forall id :: id in app.windows ==>
          app.windows[id] == (if id in pending then old(app.windows)[id] else old(app.windows)[id].(rect := Fit(old(app.windows)[id].rect, c)))
        decreases pending
      {
        var id :| id in pending;
        ConstrainWindow(id, c);
        pending := pending - {id};
      }
    }

    /** The size clamp, then the position clamp, on one open window. */
    method ConstrainWindow(id: WindowId, c: Container)
      requires Valid() && id in app.windows
      modifies app`windows
      ensures Valid()
      ensures app.windows == old(app.windows)[id := old(app.windows)[id].(rect := Fit(old(app.windows)[id].rect, c))]
    {
      var w := app.windows[id];
      ConstrainWindowSize(id, c);
      ConstrainWindowPosition(id, c);
      UpdateTwice(old(app.windows), id, w.(rect := FitSize(w.rect, c)), w.(rect := Fit(w.rect, c)));
    }

    /** `setActiveWindow`: raises an open window above all others with a fresh z-index;
        an id with no window changes nothing. */
    method SetActiveWindow(id: WindowId)
      requires Valid()
      modifies app`windows, app`windowZIndex
      ensures Valid()
      ensures id !in old(app.windows) ==> app.windows == old(app.windows) && app.windowZIndex == old(app.windowZIndex)
      ensures id in old(app.windows) ==>
        && app.windowZIndex == old(app.windowZIndex) + 1
        && app.windows == old(app.windows)[id := old(app.windows)[id].(z := app.windowZIndex)]
      ensures id in app.windows ==> forall o :: o in app.windows && o != id ==> app.windows[o].z < app.windows[id].z
    {
      if id in app.windows {
        app.windowZIndex := app.windowZIndex + 1;
        app.windows := app.windows[id := app.windows[id].(z := app.windowZIndex)];
      }
    }

    /** `createWindow`: a fresh id, a name no open window has, the clamped starting rectangle,
        the editor tab showing, raised above every other window. */
    method CreateWindow(data: WindowData, c: Container) returns (id: WindowId)
      requires Valid()
      modifies app`windows, app`windowZIndex, app`nextWindowId
      ensures Valid()
      ensures id == old(app.nextWindowId) && id !in old(app.windows)
      ensures app.nextWindowId == old(app.nextWindowId) + 1
      ensures app.windowZIndex == old(app.windowZIndex) + 2
      ensures app.windows.Keys == old(app.windows).Keys + {id} && |app.windows| == |old(app.windows)| + 1
      ensures forall o :: o in old(app.windows) ==> app.windows[o] == old(app.windows)[o]
      ensures IsFirstFreeName(Names(old(app.windows)), data.name, |old(app.windows)|, app.windows[id].name)
      ensures app.windows[id].latex == data.latex && !app.windows[id].preview
      ensures app.windows[id].rect == Fit(InitialRect(data, |old(app.windows)|), c)
      ensures app.windows[id].z == app.windowZIndex
      ensures forall o :: o in app.windows && o != id ==> app.windows[o].z < app.windows[id].z
    {
      id := app.nextWindowId;
      app.nextWindowId := app.nextWindowId + 1;
      var count := |app.windows|;
      var name := ResolveName(Names(app.windows), data.name, count);
      var rect := InitialRect(data, count);
      app.windowZIndex := app.windowZIndex + 1;
      var z := app.windowZIndex;
      rect := FitSize(rect, c);
      rect := FitPosition(rect, c);
      var w := Window(name, data.latex, rect, false, z);
      AddAndRaise(id, w);
    }

    /** The end of `createWindow`: the new window is stored under its fresh id and raised. */
    method AddAndRaise(id: WindowId, w: Window)
      requires Valid() && id !in app.windows && id < app.nextWindowId
      requires w.name !in Names(app.windows) && w.z <= app.windowZIndex
      modifies app`windows, app`windowZIndex
      ensures Valid()
      ensures app.windowZIndex == old(app.windowZIndex) + 1
      ensures app.windows == old(app.windows)[id := w.(z := app.windowZIndex)]
      ensures forall o :: o in app.windows && o != id ==> app.windows[o].z < app.windows[id].z
    {
      AddKeepsNamesUnique(app.windows, id, w);
      app.windows := app.windows[id := w];
      assert Valid();
      SetActiveWindow(id);
    }

    /** `closeWindow`: forgets one window; an id with no window changes nothing. Saved views
        are left as they are. In the page the press on the close button first bubbles to
        the window's `mousedown`, which raises it and bumps `windowZIndex`
        (javascript/app.js:522), and to the header's, which starts a drag (530-541); the
        release then ends that drag with a position clamp (552-558). Those steps are the
        ones `SetActiveWindow` and `DragWindow` model; this method is the click alone. */
    method CloseWindow(id: WindowId)
      requires Valid()
      modifies app`windows
      ensures Valid()
      ensures app.windows == old(app.windows) - {id}
    {
      app.windows := app.windows - {id};
    }

    /** The name field's input handler: the trimmed name is stored unless another window
        already has it, in which case nothing changes. */
    method Rename(id: WindowId, newName: string) returns (accepted: bool)
      requires Valid() && id in app.windows
      modifies app`windows
      ensures Valid()
      ensures accepted <==> forall o :: o in old(app.windows) && o != id ==> old(app.windows)[o].name != Trim(newName)
      ensures accepted ==> app.windows == old(app.windows)[id := old(app.windows)[id].(name := Trim(newName))]
      ensures !accepted ==> app.windows == old(app.windows)
    {
      var name := Trim(newName);
      var duplicate := exists o :: o in app.windows && o != id && app.windows[o].name == name;
      if duplicate {
        accepted := false;
      } else {
        RenameKeepsNamesUnique(app.windows, id, name);
        app.windows := app.windows[id := app.windows[id].(name := name)];
        accepted := true;
      }
    }

    /** The editor's input handler: the window's text follows the textarea. */
    method EditLatex(id: WindowId, text: string)
      requires Valid() && id in app.windows
      modifies app`windows
      ensures Valid()
      ensures app.windows == old(app.windows)[id := old(app.windows)[id].(latex := text)]
    {
      app.windows := app.windows[id := app.windows[id].(latex := text)];
    }

    /** A click on one window's tab: the editor tab or (any other tab) the preview tab. */
    method ShowTab(id: WindowId, preview: bool)
      requires Valid() && id in app.windows
      modifies app`windows
      ensures Valid()
      ensures app.windows == old(app.windows)[id := old(app.windows)[id].(preview := preview)]
    {
      app.windows := app.windows[id := app.windows[id].(preview := preview)];
    }

    /** A drag of the title bar by (dx, dy), then the position clamp when the mouse is
        released. The mousedown on the title bar bubbles to the window's own handler, so
        the window is raised first. */
    method DragWindow(id: WindowId, dx: int, dy: int, c: Container)
      requires Valid() && id in app.windows
      modifies app`windows, app`windowZIndex
      ensures Valid()
      ensures app.windowZIndex == old(app.windowZIndex) + 1
      ensures var w := old(app.windows)[id];
        app.windows == old(app.windows)[id := w.(z := app.windowZIndex,
                                                 rect := FitPosition(w.rect.(left := w.rect.left + dx, top := w.rect.top + dy), c))]
      ensures forall o :: o in app.windows && o != id ==> app.windows[o].z < app.windows[id].z
    {
      var w := app.windows[id];
      SetActiveWindow(id);
      MoveWindow(id, dx, dy, c);
      UpdateTwice(old(app.windows), id, w.(z := app.windowZIndex),
                  w.(z := app.windowZIndex, rect := FitPosition(w.rect.(left := w.rect.left + dx, top := w.rect.top + dy), c)));
    }

    /** The move itself: the window's position shifts by (dx, dy), then is clamped. */
    method MoveWindow(id: WindowId, dx: int, dy: int, c: Container)
      requires Valid() && id in app.windows
      modifies app`windows
      ensures Valid()
      ensures var w := old(app.windows)[id];
        app.windows == old(app.windows)[id := w.(rect := FitPosition(w.rect.(left := w.rect.left + dx, top := w.rect.top + dy), c))]
    {
      var w := app.windows[id];
      SetRect(id, w.rect.(left := w.rect.left + dx, top := w.rect.top + dy));
      ConstrainWindowPosition(id, c);
    }

    /** The element's style rectangle while the mouse moves: only that window's rectangle
        changes. */
    method SetRect(id: WindowId, r: Rect)
      requires Valid() && id in app.windows
      modifies app`windows
      ensures Valid()
      ensures app.windows == old(app.windows)[id := old(app.windows)[id].(rect := r)]
    {
      app.windows := app.windows[id := app.windows[id].(rect := r)];
    }

    /** A drag of the resize handle by (dx, dy), which never goes below 300 by 200, then the
        size and position clamps when the mouse is released. The handle stops the mousedown
        from reaching the window, so a resize does not raise it. */
    method ResizeWindow(id: WindowId, dx: int, dy: int, c: Container)
      requires Valid() && id in app.windows
      modifies app`windows
      ensures Valid()
      ensures var w := old(app.windows)[id];
        app.windows == old(app.windows)[id := w.(rect := Fit(w.rect.(width := Max(MinWidth, w.rect.width + dx),
                                                                   height := Max(MinHeight, w.rect.height + dy)), c))]
    {
      var w := app.windows[id];
      var stretched := w.rect.(width := Max(MinWidth, w.rect.width + dx), height := Max(MinHeight, w.rect.height + dy));
      SetRect(id, stretched);
      ConstrainWindow(id, c);
      UpdateTwice(old(app.windows), id, w.(rect := stretched), w.(rect := Fit(stretched, c)));
    }

    /** `switchAllWindows`: every open window shows its preview tab (`preview`) or its editor tab. */
    method SwitchAllWindows(preview: bool)
      requires Valid()
      modifies app`windows
      ensures Valid()
      ensures app.windows == SetAllViews(old(app.windows), preview)
    {
      var pending := app.windows.Keys;
      while pending != {}
        invariant Valid()
        invariant app.windows.Keys == old(app.windows).Keys && pending <= app.windows.Keys
        invariant forall id :: id in app.windows ==>
          app.windows[id] == (if id in pending then old(app.windows)[id] else old(app.windows)[id].(preview := preview))
        decreases pending
      {
        var id :| id in pending;
        ShowTab(id, preview);
        pending := pending - {id};
      }
    }

    /** `toggleTempPreview`: starts temporary preview when it is off, ends it when it is on. */
    method ToggleTempPreview()
      requires Valid()
      modifies this, app`windows
      ensures Valid()
      ensures tempPreviewMode == !old(tempPreviewMode)
      ensures !old(tempPreviewMode) ==>
        && tempPreviewStates == SaveViews(old(app.windows))
        && app.windows == SetAllViews(old(app.windows), true)
      ensures old(tempPreviewMode) ==>
        && tempPreviewStates == map[]
        && app.windows == RestoreViews(old(app.windows), old(tempPreviewStates))
    {
      if !tempPreviewMode {
        StartTempPreview();
      } else {
        EndTempPreview();
      }
    }

    /** The first branch of `toggleTempPreview`: saves every open window's view, then shows
        every preview. */
    method StartTempPreview()
      requires Valid() && !tempPreviewMode
      modifies this, app`windows
      ensures Valid() && tempPreviewMode
      ensures tempPreviewStates == SaveViews(old(app.windows))
      ensures app.windows == SetAllViews(old(app.windows), true)
    {
      tempPreviewMode := true;
      tempPreviewStates := map[];
      var pending := app.windows.Keys;
      while pending != {}
        invariant tempPreviewMode && app.windows == old(app.windows) && app.Valid()
        invariant pending <= app.windows.Keys
        invariant tempPreviewStates.Keys == app.windows.Keys - pending
        invariant forall id :: id in tempPreviewStates ==> tempPreviewStates[id] == app.windows[id].preview
        decreases pending
      {
        var id :| id in pending;
        tempPreviewStates := tempPreviewStates[id := app.windows[id].preview];
        pending := pending - {id};
      }
      assert tempPreviewStates == SaveViews(app.windows);
      SwitchAllWindows(true);
    }

    /** The second branch of `toggleTempPreview`: puts back the saved view of each open
        window that has one, then forgets the saved views. */
    method EndTempPreview()
      requires Valid() && tempPreviewMode
      modifies this, app`windows
      ensures Valid() && !tempPreviewMode && tempPreviewStates == map[]
      ensures app.windows == RestoreViews(old(app.windows), old(tempPreviewStates))
    {
      var saved := tempPreviewStates;
      var pending := app.windows.Keys;
      while pending != {}
        invariant Valid() && tempPreviewMode && tempPreviewStates == saved
        invariant app.windows.Keys == old(app.windows).Keys && pending <= app.windows.Keys
        invariant forall id :: id in app.windows ==>
          app.windows[id] == (if id in pending then old(app.windows)[id] else RestoreView(saved, id, old(app.windows)[id]))
        decreases pending
      {
        var id :| id in pending;
        if id in saved {
          ShowTab(id, saved[id]);
        }
        pending := pending - {id};
      }
      tempPreviewMode := false;
      tempPreviewStates := map[];
    }

    /** The first step of `importMLatex`: every open window is closed. */
    method CloseAllWindows()
      requires Valid()
      modifies app`windows
      ensures Valid() && app.windows == map[]
    {
      var open := app.windows.Keys;
      while open != {}
        invariant Valid()
        invariant app.windows.Keys == open
        decreases open
      {
        var id :| id in open;
        CloseWindow(id);
        open := open - {id};
      }
      assert app.windows == map[];
    }

    /** The second step of `importMLatex`: one window per entry of the list, in order, under
        consecutive fresh ids. */
    method CreateWindows(entries: seq<WindowData>, c: Container)
      requires Valid()
      modifies app`windows, app`windowZIndex, app`nextWindowId
      ensures Valid()
      ensures app.nextWindowId == old(app.nextWindowId) + |entries|
      ensures app.windowZIndex == old(app.windowZIndex) + 2 * |entries|
      ensures Created(old(app.windows), app.windows, old(app.nextWindowId), old(app.windowZIndex), entries,
                      Placements(entries, |old(app.windows)|, c))
    {
      ghost var base := app.windows;
      var start := app.nextWindowId;
      ghost var startZ := app.windowZIndex;
      for k := 0 to |entries|
        invariant Valid()
        invariant app.nextWindowId == start + k
        invariant app.windowZIndex == startZ + 2 * k
        invariant Created(base, app.windows, start, startZ, entries[..k], Placements(entries[..k], |base|, c))
        invariant |app.windows| == |base| + k
      {
        CreateNext(base, start, startZ, entries[..k], entries[k], c);
        PrefixSnoc(entries, k);
      }
      assert entries[..|entries|] == entries;
    }

    /** One step of `CreateWindows`: the next entry's window under the next id. */
    method CreateNext(ghost base: map<WindowId, Window>, ghost start: nat, ghost z0: int,
                      ghost done: seq<WindowData>, e: WindowData, c: Container)
      requires Valid()
      requires app.nextWindowId == start + |done| && app.windowZIndex == z0 + 2 * |done|
      requires Created(base, app.windows, start, z0, done, Placements(done, |base|, c))
      requires |app.windows| == |base| + |done|
      modifies app`windows, app`windowZIndex, app`nextWindowId
      ensures Valid()
      ensures app.nextWindowId == old(app.nextWindowId) + 1
      ensures app.windowZIndex == old(app.windowZIndex) + 2
      ensures Created(base, app.windows, start, z0, done + [e], Placements(done + [e], |base|, c))
      ensures |app.windows| == |old(app.windows)| + 1
    {
      ghost var before := app.windows;
      var id := CreateWindow(e, c);
      CreatedNext(base, before, app.windows, start, z0, done, e, id, c);
    }

    /** `importMLatex` after the file is read: an unparsable file changes nothing; otherwise
        every open window is closed and each listed window is created in order, under
        consecutive fresh ids (a file without a window list leaves the workspace empty). */
    method ImportLayout(file: LayoutFile, c: Container) returns (ok: bool)
      requires Valid()
      modifies app`windows, app`windowZIndex, app`nextWindowId
      ensures Valid()
      ensures ok <==> file.WindowList?
      ensures file.Unparsable? ==> app.windows == old(app.windows)
      ensures file.NoWindowList? ==> app.windows == map[]
      ensures !file.WindowList? ==>
        app.nextWindowId == old(app.nextWindowId) && app.windowZIndex == old(app.windowZIndex)
      ensures file.WindowList? ==>
        && app.nextWindowId == old(app.nextWindowId) + |file.windows|
        && app.windowZIndex == old(app.windowZIndex) + 2 * |file.windows|
        && Created(map[], app.windows, old(app.nextWindowId), old(app.windowZIndex), file.windows,
                   Placements(file.windows, 0, c))
    {
      if file.Unparsable? {
        return false;
      }
      CloseAllWindows();
      if file.NoWindowList? {
        return false;
      }
      CreateWindows(file.windows, c);
      ok := true;
    }
  }
}
