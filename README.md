# LaTexReader core, modelled in Dafny

LaTexReader is a browser page for writing and previewing LaTeX. This project models the
parts of its single script (`javascript/app.js`) that hold state and rules:

- the application state (`AppState`): the editor font size, the floating windows, the
  z-index counter and the window-id counter;
- the single-document editor's zoom buttons;
- the multi-window workspace (`WindowMode`):
  - creating windows with unique names;
  - closing, raising, renaming, dragging and resizing windows;
  - clamping a window's size and position to the workspace;
  - switching every window between its editor and preview tabs;
  - temporary preview, which saves each window's view and restores it afterwards;
  - importing a layout file;
- reading the page's query string (`Utils.getUrlParams`);
- the parameter list that the converter view sends to the remote compile service
  (`ConverterMode.convertToPDF`).

Modules:

| module | file | what it holds |
|---|---|---|
| `Common` | common.dfy | `Option` and `Result` |
| `Strings` | strings.dfy | JavaScript's `trim`, `split` (and its inverse `join`), decimal `String(n)` |
| `Geometry` | geometry.dfy | `constrainWindowSize` / `constrainWindowPosition` arithmetic on integer pixels |
| `AppModel` | app_state.dfy | the `AppState` class, the per-window record, the unique-name invariant |
| `Editor` | editor.dfy | the zoom handlers |
| `WindowNames` | window_names.dfy | the name-resolution loop of `createWindow` |
| `Windows` | windows.dfy | the `WindowMode` class and its handlers |
| `UrlParams` | url_params.dfy | `getUrlParams` |
| `Converter` | converter.dfy | the `convertToPDF` parameter list and query string |

State that the script changes in place is modelled as classes:

- `AppModel.AppState` holds the script's state object. Its invariant `Valid()` holds that:
  - the font size is a multiple of 10 in [50, 200];
  - window names are pairwise distinct;
  - every window id has already been handed out;
  - no window's z-index is above the last one handed out.
- `Windows.WindowMode` holds the temporary-preview flag and the saved views.

Every handler is a method that keeps `Valid()`. All but three state their whole new state;
`CreateWindows`, `CreateNext` and `ImportLayout` leave part of it unstated, as listed under
"Left out". The loops
over `Object.keys(AppState.windows)` are `while` loops over the set of ids still to visit.
The arithmetic of the clamps and the query-string reading are pure functions with lemmas.

Window ids are the numbers `n` of the element ids `'window-' + n`; the map from `n` to
that string is injective, so the model keeps `n`. A window record keeps:

- its name and LaTeX text;
- its style rectangle (`left`, `top`, `width`, `height`);
- whether its preview tab is showing;
- its z-index.

JavaScript calls that the model cannot see are parameters:

- `decodeURIComponent` is a parameter `string -> Option<string>`. `None` stands for the
  `URIError` it throws, which aborts `getUrlParams`.
- The form encoder of `URLSearchParams.toString()` is a parameter `string -> string`.
- The workspace container's size is a parameter of every operation that clamps.

## Model

| member | source | states |
|---|---|---|
| `Strings.LeadingWhitespace` | javascript/app.js:628 | the count covers only whitespace and stops at the first non-whitespace character, if any |
| `Strings.TrailingWhitespace` | javascript/app.js:628 | the count covers only whitespace and stops at the last non-whitespace character, if any |
| `Strings.Trim` | javascript/app.js:628 | the input is its leading whitespace, then the result, then only whitespace; the result neither starts nor ends with whitespace |
| `Strings.TrimEmptyIffAllWhitespace` | javascript/app.js:921-925 | a trimmed field is empty exactly when every character of it is whitespace |
| `Strings.TrimOfTrimmed` | javascript/app.js:628 | a string without whitespace at either end is its own trim |
| `Strings.TrimIdempotent` | javascript/app.js:628 | trimming twice is trimming once |
| `Strings.Split` | javascript/app.js:20 | `split` with a one-character separator gives at least one piece, and no piece contains the separator |
| `Strings.JoinSplit` | javascript/app.js:20 | joining the pieces of a split with the separator gives back the original string |
| `Strings.SplitSeparatorFreePrefix` | javascript/app.js:20 | prepending separator-free text to a string only extends the first piece of its split |
| `Strings.SplitJoin` | javascript/app.js:20 | splitting a join of separator-free pieces gives back exactly those pieces |
| `Strings.NatToString` | javascript/app.js:444 | the decimal form of a count is a non-empty digit string with no leading zero |
| `Strings.DecimalRoundTrip` | javascript/app.js:444 | reading the decimal form of `n` back as a number gives `n` |
| `Strings.NatToStringInjective` | javascript/app.js:447 | different counters have different decimal forms |
| `Geometry.OrDefault` | javascript/app.js:240-241 | `parseInt(x) \|\| d`: a NaN or a zero gives `d`, any other integer is kept |
| `Geometry.ConstrainedSize` | javascript/app.js:275-295 | width is at least 300 and at most the container width when that is at least 300; it is the parsed width (400 when unparsable or zero) when that is in range, and the container width when the parsed width is larger; likewise for height with 200 and 300 |
| `Geometry.ConstrainedPosition` | javascript/app.js:233-272 | `0 <= top <= max(0, containerHeight - 40)`; `left <= containerWidth - 50`; `left >= 50 - windowWidth` unless that conflicts with the right bound, in which case the right bound wins; in-range coordinates are kept, and an out-of-range one goes to the nearest bound it crosses |
| `Geometry.ConstrainedSizeIdempotent` | javascript/app.js:275-295 | applying the size clamp to its own output changes nothing |
| `Geometry.ConstrainedPositionIdempotent` | javascript/app.js:233-272 | applying the position clamp to its own output, for the same window width, changes nothing |
| `Geometry.FitSize` | javascript/app.js:275-295 | the size clamp on a stored rectangle keeps its position and makes it at least 300 by 200 |
| `Geometry.FitPosition` | javascript/app.js:233-272 | the position clamp on a stored rectangle keeps its size and puts it within the top, bottom and right bounds |
| `Geometry.Fit` | javascript/app.js:488-489 | size then position: the result is at least 300 by 200 and within the top, bottom and right bounds |
| `Geometry.FitIdempotent` | javascript/app.js:488-489 | clamping an already clamped rectangle changes nothing |
| `AppModel.Names` | javascript/app.js:446 | the names in use are exactly the open windows' names |
| `AppModel.AppState.constructor` | javascript/app.js:6-12 | the state at page load: editor mode, 100% font, no windows, both counters at 1; the invariant holds |
| `Editor.ZoomedIn` | javascript/app.js:119-122 | zoom in raises the size by at most 10, never above 200, stays a multiple of 10, and stays in [50, 200] when it starts there |
| `Editor.ZoomedOut` | javascript/app.js:124-127 | zoom out lowers the size by at most 10, never below 50, stays a multiple of 10, and stays in [50, 200] when it starts there |
| `Editor.ZoomOutUndoesZoomIn` | javascript/app.js:119-127 | below 200, zooming out undoes zooming in |
| `Editor.ZoomInUndoesZoomOut` | javascript/app.js:119-127 | above 50, zooming in undoes zooming out |
| `Editor.ZoomIn` | javascript/app.js:119-122 | the click handler sets the font size to the zoomed-in size and keeps the invariant |
| `Editor.ZoomOut` | javascript/app.js:124-127 | the click handler sets the font size to the zoomed-out size and keeps the invariant |
| `WindowNames.CandidateInjective` | javascript/app.js:446-447 | different suffix counters give different candidate names |
| `WindowNames.InitialNotCandidate` | javascript/app.js:444-448 | the first name tried is never one of the numbered candidates |
| `WindowNames.FirstFreeNameUnique` | javascript/app.js:444-448 | the name the loop settles on is determined by the taken names, the requested name and the window count |
| `WindowNames.ResolveName` | javascript/app.js:444-448 | the loop ends and yields a name no window has: the first name tried if free, else the free candidate with the smallest counter |
| `UrlParams.QueryOf` | javascript/app.js:19 | the query string is `location.search` without its first character (empty stays empty) |
| `UrlParams.PairOf` | javascript/app.js:23-24 | a piece gives nothing exactly when it is empty or starts with `=`; otherwise the key is non-empty, neither part holds `=`, and the piece is the key alone with the empty value, `key=value`, or `key=value=` followed by more |
| `UrlParams.AddPiece` | javascript/app.js:23-26 | a decoding failure stays a failure; a piece with an empty key leaves the dictionary as it is |
| `UrlParams.GetUrlParams` | javascript/app.js:17-29 | the loop's dictionary is the fold of every `&`-separated piece of the query string, in order |
| `UrlParams.ParamsNoneSticks` | javascript/app.js:22-27 | once a decoding fails, reading more pieces cannot recover |
| `UrlParams.ParamsFailure` | javascript/app.js:22-27 | reading fails exactly when some piece with a non-empty key fails to decode its key or value |
| `UrlParams.ParamsKeys` | javascript/app.js:22-27 | a key is in the dictionary exactly when some piece decodes to that key |
| `UrlParams.ParamsLastWins` | javascript/app.js:22-27 | a key maps to the decoded value of the last piece with that key |
| `Windows.InitialRect` | javascript/app.js:455-458 | a missing (falsy, so also zero) `x` or `y` starts at `50 + 30n` for `n` open windows, a numeric one is kept, a non-numeric one is rejected by the browser and read back as 0; a non-negative numeric width or height is kept, and a missing, negative or non-numeric one gives 400 or 300 |
| `Windows.TempPreviewRoundTrip` | javascript/app.js:371-437 | turning temporary preview on and straight off gives back every window as it was |
| `Windows.TempPreviewRestoresSurvivors` | javascript/app.js:404-435 | ending temporary preview keeps the set of windows; a window open when it started gets its saved view back and keeps its other current fields; a window opened in between is untouched |
| `Windows.FitAllIdempotent` | javascript/app.js:333-341 | clamping every window twice is clamping once |
| `Windows.RenameKeepsNamesUnique` | javascript/app.js:627-641 | a rename that no other window's name clashes with keeps names pairwise distinct |
| `Windows.AddKeepsNamesUnique` | javascript/app.js:444-448 | adding a window under a new id with a name not in use keeps names pairwise distinct |
| `Windows.WindowMode.constructor` | javascript/app.js:228-230 | temporary preview starts off, with no saved views |
| `Windows.WindowMode.ConstrainWindowSize` | javascript/app.js:275-295 | only the window's size changes, to the size clamp of its stored size |
| `Windows.WindowMode.ConstrainWindowPosition` | javascript/app.js:233-272 | only the window's position changes, to the position clamp of its stored position and width |
| `Windows.WindowMode.ConstrainWindow` | javascript/app.js:337-338 | only the window's rectangle changes, to the size clamp followed by the position clamp |
| `Windows.WindowMode.ConstrainAllWindows` | javascript/app.js:333-341 | every window's rectangle becomes its clamp, size first; nothing else changes |
| `Windows.WindowMode.SetActiveWindow` | javascript/app.js:645-657 | an open window gets the next z-index and is then above every other window; an unknown id changes nothing |
| `Windows.WindowMode.AddAndRaise` | javascript/app.js:493-503 | the window is stored under its id, gets the next z-index and is above every other window; names stay pairwise distinct |
| `Windows.WindowMode.CreateWindow` | javascript/app.js:439-506 | the new window gets the next id and a name no open window had (the first free one); it holds the data's LaTeX text and shows its editor tab; its rectangle is the clamped starting rectangle; its z-index is the counter's new value, 2 above the old one, and it is above every other window; the other windows are unchanged and names stay pairwise distinct |
| `Windows.WindowMode.CloseWindow` | javascript/app.js:659-665 | the window is removed, and only it |
| `Windows.WindowMode.Rename` | javascript/app.js:627-642 | the trimmed name is stored exactly when no other window has it; otherwise nothing changes; names stay pairwise distinct |
| `Windows.WindowMode.EditLatex` | javascript/app.js:622-624 | only that window's LaTeX text changes, to the editor's text |
| `Windows.WindowMode.ShowTab` | javascript/app.js:602-619 | only that window's view changes, to the clicked tab |
| `Windows.WindowMode.DragWindow` | javascript/app.js:522-561 | the window is raised above every other window (the press bubbles to the window), moves by the drag offset and its position is then clamped; nothing else changes |
| `Windows.WindowMode.MoveWindow` | javascript/app.js:543-559 | only the window's position changes: shifted by the drag offset, then clamped |
| `Windows.WindowMode.SetRect` | javascript/app.js:547-548 | only the window's stored rectangle changes, to the one written to its style |
| `Windows.WindowMode.ResizeWindow` | javascript/app.js:563-593 | the window grows by the drag offset (never below 300 by 200) and is then clamped, size first; nothing else changes |
| `Windows.WindowMode.SwitchAllWindows` | javascript/app.js:343-369 | every window shows the requested tab; nothing else changes |
| `Windows.WindowMode.ToggleTempPreview` | javascript/app.js:371-437 | turning on saves every window's view and shows every preview; turning off restores each saved view and forgets the saved views |
| `Windows.WindowMode.StartTempPreview` | javascript/app.js:375-399 | the saved views are exactly the open windows' views, and every window then shows its preview |
| `Windows.WindowMode.EndTempPreview` | javascript/app.js:401-436 | each open window with a saved view gets it back, the others are untouched, and no views stay saved |
| `Windows.WindowMode.CloseAllWindows` | javascript/app.js:716-718 | no window is left open |
| `Windows.WindowMode.CreateWindows` | javascript/app.js:721-723 | the open windows stay as they were; one window per entry is added under consecutive fresh ids; the `j`-th holds its entry's LaTeX text, shows its editor tab, has z-index 2(j+1) above the counter's start and the clamped starting rectangle for `n + j` open windows; the z-index counter grows by 2 per entry |
| `Windows.WindowMode.CreateNext` | javascript/app.js:722 | one more entry's window is added under the next id, with its text, editor tab, z-index and the next placement; the windows created before are unchanged; the z-index counter grows by 2 (once on creation, once when raised) |
| `Windows.PlacementAt` | javascript/app.js:455-458 | the `j`-th window of a sequence of creations starts at the clamped starting rectangle for `n + j` open windows |
| `Windows.CreatedCompose` | javascript/app.js:721-723 | creating windows for a list and then one for a further entry is creating windows for the extended list |
| `Windows.WindowMode.ImportLayout` | javascript/app.js:701-736 | an unreadable file changes nothing; otherwise all windows are closed; a file without a window list leaves none and touches neither counter; a list gives exactly one window per entry, under consecutive fresh ids, holding the entries' LaTeX texts in order, with the editor tab showing, increasing z-indexes and the clamped starting rectangles for 0, 1, 2, … open windows, and grows the z-index counter by 2 per entry |
| `Converter.ModeOf` | javascript/app.js:920-943 | `text`, `url` and `git` select their modes; any other value selects none |
| `Converter.KeyName` | javascript/app.js:926-957 | every parameter name is non-empty and holds neither `&` nor `=` |
| `Converter.LookupAppend` | javascript/app.js:917-957 | appending to the parameter list leaves every earlier binding visible and binds only the appended key when it was unbound |
| `Converter.AppendParam` | javascript/app.js:917-957 | appending an unbound key keeps keys distinct, binds that key and changes no other binding |
| `Converter.DownloadName` | javascript/app.js:913 | the download name is never empty: the typed name when there is one, and `output.pdf` exactly when the field is empty |
| `Converter.SourceParams` | javascript/app.js:920-943 | fails, with the mode's error, exactly when the mode's required field is blank after trimming; otherwise binds the mode's fields to their trimmed values and nothing else |
| `Converter.RequiredParam` | javascript/app.js:920-933 | fails exactly when the trimmed field is empty; otherwise binds the key to the trimmed value alone |
| `Converter.GitParams` | javascript/app.js:934-942 | fails exactly when the trimmed repository or the trimmed target is empty; otherwise binds both to their trimmed values |
| `Converter.AppendOptions` | javascript/app.js:945-958 | `command` is bound exactly when it is not `pdflatex`, `force=true` exactly when checked, `download` with the download name exactly when checked; the source bindings are kept and keys stay distinct |
| `Converter.BuildParams` | javascript/app.js:908-958 | fails exactly when the mode's required field is blank, with that mode's error; otherwise every key appears at most once and is bound to the value the form gives it |
| `Converter.Pieces` | javascript/app.js:961 | one `name=encoded value` piece per parameter, in order |
| `Converter.QueryPartAfterPrefix` | javascript/app.js:961 | the query part of an address is everything after its first `?` |
| `Converter.FullUrlCarriesQuery` | javascript/app.js:961 | when the API server address holds no `?`, the query part of the address opened is exactly the query string built from the parameters |
| `Converter.QueryReadsBack` | javascript/app.js:961 | with an encoder that escapes `&` and `=`, the query string splits back into one piece per parameter, and each piece reads back as its name and encoded value |

## Left out

- LaTeX rendering with `latexjs`, the preview panes' content and the editor's debounced
  re-rendering (`setTimeout`). These belong to a foreign library and to the browser's timers.
- Image export with `html2canvas`, the layout export (`exportMLatex`) and its download,
  `FileReader`, the clipboard and `window.open`. These are browser I/O.
- `fetch` of a `url` query parameter, the Base64 helpers, and `setUrlParam` / mode
  switching through the address bar. These are network and browser-history I/O.
- The DOM itself: toasts, CSS classes, the sample document, the compile-mode radio UI,
  the mobile tab bar and the display options read from the query string.
- `decodeURIComponent` and the form encoder are parameters, not definitions.
  `Converter.QueryReadsBack` assumes only that the encoder escapes `&` and `=`.
- Floating-point geometry. Pixel values are integers. The font size in pixels
  (`editorFontSize / 100 * 16`) is not modelled.
- `offsetWidth` and `offsetHeight` are taken to be the stored style width and height.
  The position clamp reads `offsetWidth`; the resize handler starts from both.
- Drag and resize are modelled as one step from press to release, by the total offset.
  The intermediate `mousemove` positions are not modelled; only the clamp on release
  decides the stored result. The `mousemove` and `mouseup` listeners are registered on
  the document and stay registered after a window closes; they then do nothing, because
  no drag or resize is in progress and the `mousemove` handlers check that the window is
  still open. Listener registration is not modelled.
- `Windows.WindowMode.ImportLayout` reads the file into `LayoutFile` and `WindowData`
  values. JSON parsing is not modelled, and neither is a `windows` value that is not a list.
  A coordinate is a `Coord`: missing (any falsy value), an integer, or non-numeric. A
  non-integer number (`12.5`) and a string with trailing characters after a number are
  not modelled. An empty name or text stands for a missing one; a name that is not a
  string is not modelled.
- Exporting then importing a layout does not give back the same layout. A zero
  coordinate reads as missing (`data.x || …`), and the window ids change. The model keeps
  the code's behaviour and proves no such round trip.
- `Windows.WindowMode.CreateWindows`, `Windows.WindowMode.CreateNext` and
  `Windows.WindowMode.ImportLayout` state the id, LaTeX text, view, z-index and rectangle
  of every window they create. They do not state each one's name, which
  `Windows.WindowMode.CreateWindow` states one call at a time.
- `Converter.BuildParams` binds keys of a small enumeration rather than strings.
  `Converter.KeyName` gives each key's string name.
- Keys such as `__proto__` behave specially in a JavaScript object. This is not modelled;
  the dictionary is a plain map.
- The event handlers of a closed window are not modelled. Its elements are removed, so
  they no longer fire.
