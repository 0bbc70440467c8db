# Demo-gallery navigation engine, modelled in Dafny

The demo gallery lays out a 2D canvas of demo tiles ("slides") grouped into
labelled regions ("groups"). Its engine (`QtDemo/qml/QtDemo/engine.js`) keeps:

- two registries of created objects, `objects` (slides) and `groups`;
- two cyclic cursors, `currentDemoIndex` and `currentGroupIndex`. Each is a
  position in a navigation list (`navigationList`, `groupNavigationList`),
  not in the registry itself.

The navigation queries (`getCurrent`, `getNext`, `getPrevious` and their
group twins) move a cursor and resolve it into a target: a position, a scale
and a `navState` (2 zooms onto a slide, 1 onto a group). The view then
animates toward that target. Resolving a slide releases the content of every
other slide. Two geometry helpers compute a bounding box over the slides and
a uniform "contain" scale. That scale is stored as each object's
`targetScale`.

This project models that engine:

- `types.dfy`: the values. These are table rows, slides, groups, targets and
  content-hook events, plus the "uids are positional" predicates.
- `cursor.dfy`: the cyclic cursor arithmetic that both cursors share, with
  its round-trip and period lemmas.
- `scan.dfy`: the linear scans. This covers reading a navigation list
  (an out-of-range read is JavaScript `undefined`), `indexOf`, the slide scan
  of `selectTarget` with the releases it makes, and the early-stopping group
  scan of `selectGroup`.
- `geometry.dfy`: `scaleToBox` and the bounding-box loop, both as written and
  corrected (see Findings).
- `registry.dfy`: what `createSlide`/`createGroup` build from one row, and the
  registries `initSlides`/`initGroups` build from a whole table.
- `config.dfy`: the shipped tables. It proves they meet what the engine needs
  and checks the end-to-end first step.
- `engine.dfy`: class `Engine`. It holds the module-level state as fields and
  has one method per engine function. Its `log` is a ghost field that records
  every `loadDemo`/`releaseDemo` call the engine makes.

Some behaviours of the code are easy to misread, and the model keeps them:

- `getCurrent` is not free of effects. It calls `selectTarget`, so it releases
  every other slide and rewrites both cursors. It sets the group cursor to the
  slide's `gid`, which is a group id, not a position in
  `groupNavigationList`.
- A cursor is not always `-1` or in range. When a component was not ready,
  `navigationList` is longer than the registry, and `indexOf` can give a
  position at or past `objects.length`. For example, with 13 slides built
  from the shipped table, `selectTarget(9)` sets the slide cursor to 13,
  because 9 is the last entry of the 14-entry list. The group cursor takes
  whatever `gid` the slide row carries.
- `loadCurrentDemo` loads a slide only when the cursor is in
  `[0, objects.length)`, because the load sits inside its loop. A cursor that
  is merely "not -1" is not enough.
- `selectTarget` returns `positions[idx]`, the table row at the registry
  position. This is the slide's own row only while every earlier component
  loaded.

## Model

| member | source | states |
|---|---|---|
| `Cursor.Next` | QtDemo/qml/QtDemo/engine.js:134-136 | from any cursor ≥ -1 with a non-empty registry, the new cursor is in `[0, n)`; the last position wraps to 0; -1 steps to 0; otherwise the cursor advances by one |
| `Cursor.Prev` | QtDemo/qml/QtDemo/engine.js:143-145 | from any cursor ≤ n with a non-empty registry, the new cursor is in `[0, n)`; any cursor ≤ 0, -1 included, wraps to `n - 1`; otherwise the cursor moves back by one |
| `Cursor.PrevUndoesNext` | QtDemo/qml/QtDemo/engine.js:132-148 | from an in-range cursor, a step forward followed by a step back restores the cursor |
| `Cursor.NextUndoesPrev` | QtDemo/qml/QtDemo/engine.js:132-148 | from an in-range cursor, a step back followed by a step forward restores the cursor |
| `Cursor.FullCycle` | QtDemo/qml/QtDemo/engine.js:132-148 | n steps forward, or n steps back, return an in-range cursor to its start (period n) |
| `Cursor.AdvanceFromUnselected` | QtDemo/qml/QtDemo/engine.js:44-45 | from the unselected cursor -1, stepping forward k+1 times is the same as stepping forward k times from position 0 |
| `Cursor.RetreatFromUnselected` | QtDemo/qml/QtDemo/engine.js:44-45 | from -1, stepping back k+1 times is the same as stepping back k times from the last position |
| `Scan.Lookup` | QtDemo/qml/QtDemo/engine.js:129 | reading `navigationList[i]` (also at lines 138, 147, 178, 187 and 196) gives the entry when i is in range; an out-of-range read is `undefined`, modelled as a negative id, which the `uid >= 0` and `id >= 0` tests of both scans treat the same way |
| `Scan.Releases` | QtDemo/qml/QtDemo/engine.js:154-160 | the `releaseDemo` calls of selectTarget's loop, one `Released(i)` per slide that does not match, appended in loop order; its own contract says every call is a release and there are at most as many as slides, and `Scan.ReleasesExactlyNonMatching` states which slides, how often and in what order |
| `Scan.IndexOf` | QtDemo/qml/QtDemo/engine.js:162 | `indexOf` gives -1 exactly when the value is absent; otherwise it gives the first position holding the value |
| `Scan.IndexOfPermutation` | QtDemo/qml/QtDemo/engine.js:162 | in a permutation, `indexOf` of the entry at position c is c |
| `Scan.LastMatch` | QtDemo/qml/QtDemo/engine.js:152-160 | the index `selectTarget` settles on is a slide whose uid is the non-negative `uid`, with no match after it; it is -1 exactly when no slide matches |
| `Scan.FirstMatch` | QtDemo/qml/QtDemo/engine.js:201-208 | the index `selectGroup` settles on is a matching group with no match before it; it is -1 exactly when no group matches |
| `Scan.LastMatchPositional` | QtDemo/qml/QtDemo/engine.js:150-160 | with positional uids, `selectTarget(uid)` finds position `uid` when uid is in range, and finds nothing otherwise (negative or too large) |
| `Scan.FirstMatchPositional` | QtDemo/qml/QtDemo/engine.js:199-208 | with positional uids, `selectGroup(id)` finds position `id` when id is in range, and finds nothing otherwise |
| `Scan.ReleasesExactlyNonMatching` | QtDemo/qml/QtDemo/engine.js:154-160 | `selectTarget` calls `releaseDemo` on exactly the slides that do not match, each once, in registry order |
| `Scan.ReleasesWithoutMatch` | QtDemo/qml/QtDemo/engine.js:154-160 | with no match, `selectTarget` releases every slide in order, exactly as `releaseDemos` does |
| `Scan.ReleasesPositional` | QtDemo/qml/QtDemo/engine.js:154-160 | with positional uids and uid in range, `selectTarget` releases every slide except the one at position `uid`, in order |
| `Geometry.ScaleToBox` | QtDemo/qml/QtDemo/engine.js:247-250 | for positive source sizes, the scaled source fits the destination on both axes and fills it on at least one |
| `Geometry.ScaleToBoxIsLargest` | QtDemo/qml/QtDemo/engine.js:247-250 | every uniform scale that fits is at most `scaleToBox`'s |
| `Geometry.Widen` | QtDemo/qml/QtDemo/engine.js:233-241 | one loop step of `boundingBox` never raises a minimum or lowers a maximum; because of the `else if`, at most one bound moves per axis |
| `Geometry.Accumulate` | QtDemo/qml/QtDemo/engine.js:222-242 | after any number of slides, the running bounds still enclose the origin: `minX ≤ 0 ≤ maxX` and `minY ≤ 0 ≤ maxY` |
| `Geometry.BoxOf` | QtDemo/qml/QtDemo/engine.js:244 | the returned width and height are non-negative, the box spans exactly the bounds, and the centre is the midpoint |
| `Geometry.StraddlingSlideEscapes` | QtDemo/qml/QtDemo/engine.js:233-241 | a single slide straddling the origin has its right and bottom edges outside the box `boundingBox` reports |
| `Geometry.Covering` | QtDemo/qml/QtDemo/engine.js:221-245 | the corrected box encloses the origin and every slide's scaled extent |
| `Geometry.CoveringIsTight` | QtDemo/qml/QtDemo/engine.js:221-245 | each bound of the corrected box is 0 or an edge of some slide, so it is the smallest such box |
| `Registry.NewSlide` | QtDemo/qml/QtDemo/engine.js:59-73 | the created slide takes its uid and gid as given and its size and scale from its skin; the table point is its centre |
| `Registry.NewGroup` | QtDemo/qml/QtDemo/engine.js:93-97 | the created group takes its uid as given and its rectangle from the row |
| `Registry.BuiltSlides` | QtDemo/qml/QtDemo/engine.js:49-81 | after any mix of ready and not-ready `createSlide` calls, slide uids are positional and there are at most as many slides as rows |
| `Registry.BuiltGroups` | QtDemo/qml/QtDemo/engine.js:83-104 | the same for `createGroup`: group uids are positional and there are at most as many groups as rows |
| `Registry.AllReadySlides` | QtDemo/qml/QtDemo/engine.js:49-81 | when every component loads, slide i is made from row i |
| `Registry.AllReadyGroups` | QtDemo/qml/QtDemo/engine.js:83-104 | when every component loads, group i is made from row i |
| `Config.TablesAreWellFormed` | QtDemo/qml/QtDemo/engine.js:1-43 | every shipped slide names an existing skin, and both shipped navigation lists are permutations of their tables |
| `Config.FirstStepSelectsSecondSlide` | QtDemo/qml/QtDemo/engine.js:42 | with every component loaded, the first `getNext` from -1 selects the second slide created |
| `EngineState.Engine.constructor` | QtDemo/qml/QtDemo/engine.js:42-47 | both registries start empty and both cursors start at -1 |
| `EngineState.Engine.CreateSlide` | QtDemo/qml/QtDemo/engine.js:55-81 | a ready component appends one slide whose uid is the old length; a not-ready one changes nothing; uids stay positional |
| `EngineState.Engine.InitSlides` | QtDemo/qml/QtDemo/engine.js:49-53 | one `createSlide` per row leaves exactly the registry `BuiltSlides` describes |
| `EngineState.Engine.CreateGroup` | QtDemo/qml/QtDemo/engine.js:89-104 | a ready component appends one group whose uid is the old length; a not-ready one changes nothing |
| `EngineState.Engine.InitGroups` | QtDemo/qml/QtDemo/engine.js:83-87 | one `createGroup` per row leaves exactly the registry `BuiltGroups` describes |
| `EngineState.Engine.LoadCurrentDemo` | QtDemo/qml/QtDemo/engine.js:106-116 | loads `objects[navigationList[currentDemoIndex]]` exactly once when the cursor is in range, and loads nothing otherwise |
| `EngineState.Engine.ReleaseDemos` | QtDemo/qml/QtDemo/engine.js:118-122 | releases every slide once, in registry order |
| `EngineState.Engine.SelectTarget` | QtDemo/qml/QtDemo/engine.js:150-171 | releases exactly the non-matching slides. With no match it returns null and leaves both cursors unchanged. On a match it sets the slide cursor to `indexOf(idx)` and the group cursor to the slide's `gid`, and returns the row's `x`/`y`, the slide's `targetScale` and navState 2 |
| `EngineState.Engine.ResolvesInPlace` | QtDemo/qml/QtDemo/engine.js:161-163 | with a permutation as navigation order and positional uids, resolving the entry at cursor c finds that slide, puts the cursor back at c, and releases all other slides |
| `EngineState.Engine.GetCurrent` | QtDemo/qml/QtDemo/engine.js:124-130 | an out-of-range cursor gives null and changes nothing (no cursor update, no release); an in-range one resolves `navigationList[c]`, and with a permutation it gives a target and keeps the cursor |
| `EngineState.Engine.GetNext` | QtDemo/qml/QtDemo/engine.js:132-139 | resolves the entry at `Next(c, n)`; with a permutation, a non-empty registry and c ≥ -1 it gives a target and leaves the cursor at `Next(c, n)` |
| `EngineState.Engine.GetPrevious` | QtDemo/qml/QtDemo/engine.js:141-148 | resolves the entry at `Prev(c, n)`; with a permutation, a non-empty registry and c ≤ n it gives a target and leaves the cursor at `Prev(c, n)` |
| `EngineState.Engine.NextThenPrevious` | QtDemo/qml/QtDemo/engine.js:132-148 | with a permutation as navigation order, `getNext` followed by `getPrevious` brings the slide cursor back to an in-range start and resolves the slide it started on |
| `EngineState.Engine.NextAroundTheList` | QtDemo/qml/QtDemo/engine.js:132-139 | with a permutation as navigation order, `objects.length` successive `getNext` calls bring the slide cursor back to an in-range start |
| `EngineState.Engine.SelectGroup` | QtDemo/qml/QtDemo/engine.js:199-219 | with no match it returns null and leaves the cursor. On a match it takes the first matching group, sets the group cursor to `indexOf(idx)`, and returns the row's centre, the group's `targetScale` and navState 1 |
| `EngineState.Engine.GroupResolvesInPlace` | QtDemo/qml/QtDemo/engine.js:210-211 | with a permutation as group order, resolving the entry at cursor c finds that group and puts the cursor back at c |
| `EngineState.Engine.GetCurrentGroup` | QtDemo/qml/QtDemo/engine.js:173-179 | an out-of-range group cursor gives null and changes nothing; an in-range one resolves its entry, and with a permutation it keeps the cursor |
| `EngineState.Engine.GetNextGroup` | QtDemo/qml/QtDemo/engine.js:181-188 | resolves the entry at `Next(c, n)`; with a permutation it gives a target and leaves the cursor there |
| `EngineState.Engine.GetPreviousGroup` | QtDemo/qml/QtDemo/engine.js:190-197 | resolves the entry at `Prev(c, n)`; with a permutation it gives a target and leaves the cursor there |
| `EngineState.Engine.BoundingBox` | QtDemo/qml/QtDemo/engine.js:221-245 | returns the box of the as-written loop; its width and height are non-negative, it contains the origin, and its centre is the midpoint |
| `EngineState.Engine.CoveringBox` | QtDemo/qml/QtDemo/engine.js:221-245 | the corrected loop returns a box that contains every slide's scaled extent |
| `EngineState.Engine.UpdateObjectScales` | QtDemo/qml/QtDemo/engine.js:252-256 | every slide's `targetScale` becomes the contain scale of its target size; no other field and no other slide changes |
| `EngineState.Engine.UpdateGroupScales` | QtDemo/qml/QtDemo/engine.js:258-262 | every group's `targetScale` becomes the contain scale of its own width and height; nothing else changes |

## Left out

- `Qt.createComponent`, `createObject(canvas)` and `component.status` are not
  modelled. Whether a component loaded is a `ready` input to creation.
- The bodies of the slide and group hooks live in Slide.qml and Group.qml.
  Neither file is part of this model.
  - `loadDemo` and `releaseDemo` calls are recorded in the ghost `log`.
  - The `targetWidth()`/`targetHeight()` answers are parameters of
    `UpdateObjectScales`.
  - `createElements` is left out because it only builds visuals.
  - The initial `targetScale` declared there is modelled as 0.0.
- Visual-only attributes are not carried: image sources, colours, mask
  offsets, demo sizes, urls, names and label offsets. They only copy table
  cells. The colour table has nine entries against eight in the other skin
  tables, so it is not indexed as a parallel column.
- JavaScript numbers are IEEE-754 doubles. The geometry uses exact `real`
  arithmetic, and nothing is claimed about rounding.
- Slides and groups are values held in sequences. In the program they are
  QML objects that the canvas also references, so aliasing is not modelled.
  `UpdateObjectScales`/`UpdateGroupScales` replace an element instead of
  writing a field in place.
- `Geometry.ScaleToBox` requires positive source sizes, because a size that
  is not positive is a caller error for a fit-to-box scale. What JavaScript
  computes for such inputs is not modelled. With one zero size and a positive
  destination, one ratio is Infinity and `Math.min` returns the other, finite
  ratio: `scaleToBox(100, 50, 0, 50)` is 1. A negative size gives a finite,
  negative ratio that `Math.min` may pick. Two zero sizes, or a zero
  destination over a zero size, give Infinity or NaN.
- `EngineState.Engine.UpdateObjectScales` and
  `EngineState.Engine.UpdateGroupScales` require positive target sizes and
  positive group sizes, for the same caller-error reason. The finite results
  JavaScript gives for one zero or negative size are not modelled there
  either.
- `EngineState.Engine.LoadCurrentDemo` requires the navigation entry at an
  in-range cursor to name an existing slide. The program would throw a
  TypeError otherwise, and that exception is not modelled.
- `EngineState.Engine.CreateSlide` and `EngineState.Engine.CreateGroup`
  require room in their table when the component is ready. The program only
  creates objects from `initSlides`/`initGroups`, one per row, and
  `selectTarget`/`selectGroup` read the table at the matched registry
  position.
- `EngineState.Engine.InitSlides` and `EngineState.Engine.InitGroups` require
  an empty registry. The program runs each of them once, at startup.
- Rendering, animation and input handling are outside the engine and are not
  modelled.

## Findings

| source | as written | input that shows it | evidently intended | confidence | as-written member | corrected member |
|---|---|---|---|---|---|---|
| QtDemo/qml/QtDemo/engine.js:233-241 | per axis, the maximum is only compared when the minimum did not move (`else if`) | one slide with `x = y = 0`, width 2, height 2, scale 1: its left edge is -1 and its right edge 1, but the reported box is `[-1, 0]` on each axis | the box contains every slide's scaled extent | medium (the `else if` may be deliberate); not executed | `Geometry.StraddlingSlideEscapes` | `Geometry.Covering` |
