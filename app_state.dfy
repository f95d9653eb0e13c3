/** The application's mutable state (`AppState`) and the record kept per floating window. */
module AppModel {
  import opened Geometry

  /** A window's id is `'window-' + n`; the model keeps the number `n`. */
  type WindowId = nat

  /** What the workspace knows about one window: its name, its LaTeX text, its rectangle,
      whether its preview tab (rather than its editor tab) is showing, and its z-index. */
  datatype Window = Window(name: string, latex: string, rect: Rect, preview: bool, z: int)

  const InitialFontSize: int := 100
  const MinFontSize: int := 50
  const MaxFontSize: int := 200
  const ZoomStep: int := 10

  /** The names in use. */
  function Names(windows: map<WindowId, Window>): (names: set<string>)
    ensures forall id :: id in windows ==> windows[id].name in names
    ensures forall n :: n in names <==> exists id :: id in windows && windows[id].name == n
  {
    set id | id in windows :: windows[id].name
  }

  /** No two windows share a name. */
  ghost predicate UniqueNames(windows: map<WindowId, Window>)
  {
    forall a, b :: a in windows && b in windows && a != b ==> windows[a].name != windows[b].name
  }

  class AppState {
    var currentMode: string
    /** The editor preview's font size, as a percentage of 16px. */
    var editorFontSize: int
    var windows: map<WindowId, Window>
    /** The z-index last handed out; only ever increases. */
    var windowZIndex: int
    /** The number of the next window id; only ever increases. */
    var nextWindowId: nat

    /** The state every handler preserves: the font size is a multiple of 10 in [50, 200],
        window names are pairwise distinct, every window id was handed out already, and no
        window's z-index exceeds the last one handed out. */
    ghost predicate Valid()
      reads this
    {
      && MinFontSize <= editorFontSize <= MaxFontSize
      && editorFontSize % ZoomStep == 0
      && UniqueNames(windows)
      && (forall id :: id in windows ==> id < nextWindowId)
      && (forall id :: id in windows ==> windows[id].z <= windowZIndex)
    }

    /** The state at page load. */
    constructor ()
      ensures Valid()
      ensures currentMode == "editor" && editorFontSize == InitialFontSize
      ensures windows == map[] && windowZIndex == 1 && nextWindowId == 1
    {
      currentMode := "editor";
      editorFontSize := InitialFontSize;
      windows := map[];
      windowZIndex := 1;
      nextWindowId := 1;
    }
  }
}
