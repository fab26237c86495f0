# rs-type in Dafny

A model of the core of rs-type, a typing game written in Rust on top of the
ggez engine, together with the triangle editor that draws its background. The
model covers:

- the geometry store of `src/drawing.rs`, with its text file format;
- the word producers of `src/wording.rs`;
- the mode manager and the three interactive modes of `src/lib.rs`: the menu,
  the typing game and the editor;
- the menu configuration of the typing game's executable.

Modules, one per file:

| module | file | what it holds |
|---|---|---|
| `Wrappers` | wrappers.dfy | `Option` |
| `Events` | events.dfy | mode names, key codes, mouse buttons |
| `Text` | text.dfy | the parts of Rust's string library the core uses: `lines`, `split_whitespace`, `split`, and parsing and formatting of `u32`, hex `u8` and decimal numbers |
| `Drawing` | drawing.dfy | `str2col`; class `ColoredTriangles` for the in-place operations; `nearest` and `colliding` as functions over the store's fields; `From<&str>` and `Display` |
| `Wording` | wording.dfy | `Enemies`, `CodeDict`, `KTouchParser`, the lesson shaping of `KTouchParser::new` |
| `Menu` | menu.dfy | `MenuEntry` and class `UI` |
| `Play` | game.dfy | `Enemy` and class `Game` |
| `Editor` | paint.dfy | class `Paint`, over a `ColoredTriangles` it owns |
| `App` | manager.dfy | class `Manager`, the mode map, the typing game's menus and a played scenario |

The event handlers are methods of classes, because they change their object's
fields in place. Each handler is proved against a pure function of the old
state:

- `Paint` against `KeyEffect` and `Clicked`;
- `Game` against `Typed` and `NextWord`;
- `UI` against `FirstTransition`;
- `Manager` against `KeyPending` and the modes' contracts.

The properties the program relies on are then proved about those functions.
They include:

- the file format round trip;
- the sorted, complete result of `nearest`;
- first-hit semantics of `colliding`;
- one triangle per three clicks;
- undoable view keys;
- the color cycle;
- typing picks the first matching enemy;
- victory comes only after the last level.

Three things that the source gets from its environment are parameters:

- the wall clock: "two seconds since the last enemy" is `elapsed`;
- the random x position of a new enemy: `spawnX`;
- the text of the drawing file: `data`.

In several places the Rust code panics: a malformed color string, a malformed
file line, an empty line. The model returns `None` or `ok == false` there.

## Model

| member | source | states |
|---|---|---|
| Drawing.Low24 | src/drawing.rs:144 | a value already below 2^24 is its own color |
| Drawing.Low24Periodic | src/drawing.rs:144 | bits above the low 24 are ignored: adding 2^24 gives the same color |
| Drawing.RgbChannels | src/drawing.rs:16 | packing three bytes as a color and reading the channels back gives the same red, green and blue |
| Drawing.TrimHashes | src/drawing.rs:7 | the result is a suffix of the input that no longer starts with '#', and every character dropped before it is a '#' |
| Drawing.Chunks2 | src/drawing.rs:10 | the string splits into ⌈n/2⌉ pieces of one or two characters that, joined in order, give back the string |
| Drawing.ParseHexPair | src/drawing.rs:12-13 | two hex digits parse to the byte 16·hi + lo |
| Drawing.ParseHexBytesAll | src/drawing.rs:10-15 | chunks that each parse collect to the list of their bytes |
| Drawing.SixHexDigits | src/drawing.rs:10-15 | six hex digits are three chunks that parse to three bytes, in order |
| Drawing.Str2ColHex | src/drawing.rs:5-17 | "#rrggbb" is the color with red rr, green gg and blue bb |
| Drawing.Str2ColChannels | src/drawing.rs:5-17 | reading the channels of the color parsed from "#rrggbb" gives back the bytes rr, gg and bb |
| Drawing.Str2ColTooShort | src/drawing.rs:11-16 | fewer than five characters after the leading '#'s cannot give three channels: the result is None, where the source panics |
| Drawing.ColoredTriangles.Empty | src/drawing.rs:134-137 | a new store has no colors and no triangles |
| Drawing.ColoredTriangles.AddColor | src/drawing.rs:28-40 | an unknown color is appended with an empty vertex list; a known one changes nothing; the colors stay distinct |
| Drawing.ColoredTriangles.RemoveTriangle | src/drawing.rs:43-47 | only color c's list changes, to that list without vertices 3i..3i+2 |
| Drawing.ColoredTriangles.Scale | src/drawing.rs:112-119 | every point of every color is multiplied by (sx, sy); the colors are unchanged |
| Drawing.ColoredTriangles.Translate | src/drawing.rs:122-129 | every point of every color is moved by (dx, dy); the colors are unchanged |
| Drawing.ColoredTriangles.FromText | src/drawing.rs:132-163 | the store built from the text is the parsed geometry, and None exactly when some line is malformed |
| Drawing.WithoutTriangleSpec | src/drawing.rs:43-47 | removal deletes exactly three points, keeps the points before and after them in order, and keeps whole triangles |
| Drawing.TranslateInverse | src/drawing.rs:122-129 | translating by (dx, dy) and then by (-dx, -dy) gives the store back |
| Drawing.ScaleInverse | src/drawing.rs:112-119 | scaling by (sx, sy) and then by (1/sx, 1/sy) gives the store back |
| Drawing.TransformsKeepShape | src/drawing.rs:112-129 | both transformations keep the number of colors and of points per color, and keep whole triangles |
| Drawing.DistancesSpec | src/drawing.rs:52-62 | the enumeration lists every stored point exactly once, with its squared distance, colors first and then points |
| Drawing.InsertPermutes | src/drawing.rs:64-66 | inserting into the sorted list adds exactly the one element |
| Drawing.SortPermutes | src/drawing.rs:64-66 | sorting by distance is a permutation |
| Drawing.InsertOrdered | src/drawing.rs:64-66 | inserting into a list ordered by distance keeps it ordered, with ties in enumeration order |
| Drawing.SortOrdered | src/drawing.rs:64-66 | the sorted list is ordered by distance, with ties in enumeration order, as Rust's stable sort gives |
| Drawing.NearestPrefix | src/drawing.rs:64-68 | the first m entries of the sorted enumeration are stored points, and every point left out comes after each of them by distance, ties broken by enumeration order (vertex list, then position) |
| Drawing.Nearest | src/drawing.rs:50-69 | returns min(n, total) stored points ordered by distance; every point left out comes after each returned one by distance, a tie going to the point enumerated first |
| Drawing.FirstHitInColor | src/drawing.rs:87-103 | the first triangle of color c, from t on, that contains p; None when there is none |
| Drawing.FirstHitFrom | src/drawing.rs:87-108 | the first containing triangle from color c on, colors first and then triangles |
| Drawing.Colliding | src/drawing.rs:72-109 | None exactly when no triangle contains p; otherwise the first containing triangle in stored order |
| Drawing.CentroidInside | src/drawing.rs:74-85 | the sign test counts a triangle's centroid as inside it, whatever the orientation |
| Drawing.CollidingCentroid | src/drawing.rs:72-109 | the centroid of a stored triangle always collides, with that color or an earlier one |
| Drawing.AllSomeOf | src/drawing.rs:145-151 | parses that all succeed collect to their values |
| Drawing.AllSomeExactly | src/drawing.rs:145-151 | collecting succeeds exactly when every parse does, and then yields each parse's value |
| Drawing.ParseCoordsPair | src/drawing.rs:148-149 | two numbers separated by a comma give both coordinates |
| Drawing.ParsePointsOf | src/drawing.rs:145-151 | point tokens that each parse give the list of their points |
| Drawing.IndexOfColor | src/drawing.rs:153 | the index of the first occurrence of the color, or the length when the color is absent |
| Drawing.Merge | src/drawing.rs:152-159 | merging parsed lines never gives a color twice, and gives one vertex list per color |
| Drawing.MergeSpec | src/drawing.rs:152-159 | the colors come in order of first appearance, and each has the points of all its lines in line order |
| Drawing.ParseDistinct | src/drawing.rs:132-163 | a parsed store has no color twice and one vertex list per color |
| Drawing.AllRowsPrefix | src/drawing.rs:138-151 | one malformed line makes the whole parse fail |
| Drawing.AllRowsSome | src/drawing.rs:138-151 | lines that all parse give their rows in order |
| Drawing.RowTexts | src/drawing.rs:167-178 | `Display` writes one line per color, holding that color's row |
| Drawing.LinesOfSerialise | src/drawing.rs:165-181 | the written text splits back into exactly those lines |
| Drawing.RowTextWords | src/drawing.rs:170-176 | a written line splits on whitespace into the color and one token per point |
| Drawing.ParsePointText | src/drawing.rs:145-151 | a written point with integral coordinates parses back to the same point |
| Drawing.ParseTokensOf | src/drawing.rs:139-151 | the tokens of a written line parse back to its color and points |
| Drawing.ParseRowText | src/drawing.rs:139-151 | a written line parses back to its color and points |
| Drawing.MergeDistinctRows | src/drawing.rs:152-159 | merging one row per distinct color gives the store itself |
| Drawing.ParseSerialise | src/drawing.rs:132-181 | round trip: parsing what `Display` writes gives back a store with distinct colors and integral coordinates |
| Drawing.SerialiseExample | src/drawing.rs:189-200 | one blue triangle (0,0) (1,0) (1,1) is written as "255 0,0 1,0 1,1\n" |
| Drawing.ParseTextExample | src/drawing.rs:202-216 | "255 0.0,0.0 1.0,0.0 1.0,1.0\n" parses to that one blue triangle |
| Drawing.PointExamples | src/drawing.rs:202-216 | the three test points read back as (0,0), (1,0) and (1,1) |
| Text.IndexOf | src/drawing.rs:138 | the first position of the character, or the length when it is absent |
| Text.Lines | src/drawing.rs:138 | no line contains a newline |
| Text.LinesCons | src/drawing.rs:138 | a line ended by '\n' is the first line, and the rest of the text gives the remaining lines |
| Text.Words | src/wording.rs:63 | every word is non-empty and contains no whitespace |
| Text.WordsCons | src/drawing.rs:139 | a word followed by whitespace or the end is the first word, and the rest of the text gives the remaining words |
| Text.WordsOfJoin | src/wording.rs:63 | joining words with single spaces and splitting on whitespace gives the words back |
| Text.SplitPair | src/drawing.rs:148 | splitting "a,b" on ',' gives [a, b] when neither part contains a comma |
| Text.DigitChar | src/drawing.rs:170-176 | each digit's character reads back as that digit |
| Text.NatToString | src/drawing.rs:170 | a number is written as a non-empty string of decimal digits |
| Text.NatToStringValue | src/drawing.rs:170 | the digits written for n read back as n |
| Text.ParseU32 | src/drawing.rs:140-143 | a successful `u32` parse is below 2^32 |
| Text.ParseU32OfNat | src/drawing.rs:140-143 | the decimal writing of any value below 2^32 parses back to it |
| Text.HexValue | src/drawing.rs:12-13 | a hex digit's value is below 16 |
| Text.ParseHexU8 | src/drawing.rs:12-13 | a successful hex `u8` parse is below 256 |
| Text.FractionValue | src/drawing.rs:149 | a string of fractional digits is worth between 0 and 1 |
| Text.FormatRealChars | src/drawing.rs:170-176 | a written number is non-empty and uses only digits, '-' and '.' |
| Text.ParseDigits | src/drawing.rs:149 | a run of digits parses as the integer it denotes |
| Text.ParseNegative | src/drawing.rs:149 | '-' followed by digits parses as the negated value |
| Text.ParseFormatIntegral | src/drawing.rs:149-176 | an integral coordinate, once written, parses back to itself |
| Wording.CodeDictNextWord | src/wording.rs:22-31 | levels 0 to 2 hand out dictionary entries 0 to 9 and then end; later levels end the game |
| Wording.CodeDictLevel | src/wording.rs:22-31 | each dictionary level yields the first ten dictionary words and then LevelComplete |
| Wording.KTouchLevel | src/wording.rs:74-84 | lesson l yields its words in order, then LevelComplete for every later n; past the last lesson, every answer is GameComplete |
| Wording.Lessons | src/wording.rs:51-67 | at most the first three lessons are kept, each as non-empty whitespace-free words |
| Wording.LessonsNormalised | src/wording.rs:51-67 | writing the lessons back with single spaces and shaping them again changes nothing |
| Wording.LessonsWords | src/wording.rs:51-84 | word n of level l is word n of the text of lesson l, or LevelComplete past its end |
| Menu.FirstTransition | src/lib.rs:297-304 | None exactly when no transition entry has the key; otherwise the target of the first entry that has it |
| Menu.FirstTransitionAt | src/lib.rs:297-304 | when entry i is the first with the key, its target is the answer |
| Menu.FirstTransitionTarget | src/lib.rs:297-304 | a key can only lead to one of the menu's own targets |
| Menu.UI.constructor | src/lib.rs:239-251 | a new menu has its entries and no pending transition |
| Menu.UI.KeyDown | src/lib.rs:289-305 | the pending transition becomes the first bound to the key; a key bound to none keeps it as it was |
| Menu.UI.NextState | src/lib.rs:312-316 | the pending transition is handed out once and then cleared |
| Play.FirstMatch | src/lib.rs:464-478 | the first enemy whose word starts with the character, or the length when there is none |
| Play.FirstMatchAt | src/lib.rs:464-478 | when enemy i is the first to match, the scan stops at i |
| Play.NextWordShape | src/wording.rs:14-84 | both producers end the game exactly past their last level; they give a word exactly within the level and end the level exactly past its last word |
| Play.Game.constructor | src/lib.rs:337-357 | a new game starts at level 0, word 0, with no enemies, no target and no pending transition |
| Play.Game.Update | src/lib.rs:361-404 | all enemies and the target drift by speed·(1+level). Victory and the next level happen only with the screen clear. A word is spawned at (spawnX, -1) after two seconds or on an empty screen, and only then does `sequence` advance. The new state is exactly `Play.Tick` of the old one |
| Play.TickKeepsProgress | src/lib.rs:361-404 | an update keeps the level at most the level count and the position at most the level's length, with the target alive |
| Play.TickAtEnd | src/lib.rs:361-404 | once every level is done and the screen is clear, an update only asks for the victory screen |
| Play.Game.TextInput | src/lib.rs:441-487 | the new enemies and target are `Typed` of the old ones; level, sequence and pending transition are unchanged |
| Play.Game.KeyDown | src/lib.rs:488-501 | Escape asks for the pause menu; nothing else changes |
| Play.Game.NextState | src/lib.rs:504-508 | the pending transition is handed out once and then cleared |
| Play.TypedPicks | src/lib.rs:464-478 | with no target, the first matching enemy leaves the list, which keeps its order, and becomes the target one letter shorter; with no match nothing changes |
| Play.TypedTarget | src/lib.rs:452-463 | with a target, a wrong letter changes nothing and a right one removes exactly its first letter; the enemy list is untouched |
| Play.TypedKeepsInvariant | src/lib.rs:441-487 | a target never runs out of letters, and typing never adds an enemy |
| Play.TypingCat | src/lib.rs:441-487 | typing "c", "a", "t" at a lone enemy "cat" clears the screen |
| Play.VictoryOnlyAtEnd | src/lib.rs:370-380 | the game reports victory only after the producer's last level |
| Play.SpawnWithinLevel | src/lib.rs:388-402 | a word is spawned only within a level, and `sequence` never passes the level's length |
| Editor.WithColorsSpec | src/lib.rs:550 | adding the configured colors keeps the loaded store as a prefix: new colors get empty lists, no color appears twice, and every requested color ends up present |
| Editor.WithColorsTriangulated | src/lib.rs:550 | adding colors keeps whole triangles |
| Editor.StartConsistent | src/lib.rs:543-568 | a loaded store, with the colors added and at least one color overall, is a consistent editor start |
| Editor.OpenedConsistent | src/lib.rs:536-569 | a well-formed file of whole triangles opens into a consistent editor |
| Editor.Paint.Load | src/lib.rs:543-550 | the store is the parsed file, scaled to the drawing area unless absolute, with the configured colors added |
| Editor.Paint.AddColors | src/lib.rs:550 | each configured color is added with `add_color`, in order |
| Editor.Paint.constructor | src/lib.rs:536-569 | the editor opens on the loaded store, current color 0, no corners, snapping on at distance 10 and wireframe off |
| Editor.SnapTargetSpec | src/lib.rs:672-690 | a click moves exactly when snapping is on and a stored point is within reach; it then lands on a nearest stored point, the first enumerated one on a tie |
| Editor.Clicked | src/lib.rs:672-704 | a click keeps the editor consistent |
| Editor.ClickTouchesPolygon | src/lib.rs:672-704 | a click changes only the polygon and the current color's vertex list, which can only grow |
| Editor.OtherButtonsIgnored | src/lib.rs:672-704 | buttons other than the left one change nothing |
| Editor.ThreeClicks | src/lib.rs:672-704 | three left clicks on an empty polygon add exactly the three snapped points, in click order, to the current color |
| Editor.Paint.MouseMotion | src/lib.rs:668-671 | only the cursor changes, to the mouse position minus the margin |
| Editor.Paint.MouseButtonDown | src/lib.rs:672-704 | the new editor state is `Clicked` of the old one, and it stays consistent |
| Editor.KeyEffect | src/lib.rs:705-783 | every key keeps the editor consistent, and the colors, the cursor and the number of vertex lists unchanged |
| Editor.DeleteUnderCursor | src/lib.rs:760-766 | X deletes exactly the first triangle under the cursor, three points fewer, and nothing when no triangle is there |
| Editor.PanRestores | src/lib.rs:773-776 | H then L, and J then K, give the drawing back |
| Editor.ZoomRestores | src/lib.rs:777-778 | I then O, and O then I, give the drawing back |
| Editor.TogglesRestore | src/lib.rs:750-772 | S and W undo themselves, and + then - restores the snapping distance |
| Editor.EscapeDiscards | src/lib.rs:713-744 | Escape with corners buffered drops them and does not quit; a second Escape quits |
| Editor.PressN | src/lib.rs:745-749 | pressing N any number of times keeps the editor consistent and the colors unchanged |
| Editor.ColorCycle | src/lib.rs:745-749 | after n presses of N the current color is n further on, modulo the number of colors; nothing else changes |
| Editor.ColorRoundTrip | src/lib.rs:745-749 | one press of N per color comes back to the starting state |
| Editor.Paint.KeyDown | src/lib.rs:705-783 | the new editor state is `KeyEffect` of the old one; it quits exactly on Escape with no corner buffered |
| Editor.Paint.DeleteHit | src/lib.rs:760-766 | X leaves the state `KeyEffect` gives |
| Editor.Paint.MoveView | src/lib.rs:767-778 | the pan and zoom keys leave the state `KeyEffect` gives |
| Editor.Paint.Setting | src/lib.rs:713-772 | Escape, N, S, W, + and - leave the state `KeyEffect` gives, and quit as `Quits` says |
| Editor.Paint.Pan | src/lib.rs:773-776 | only the triangles change, each moved by (dx, dy) |
| Editor.Paint.Zoom | src/lib.rs:777-778 | only the triangles change, each scaled by f |
| Editor.Paint.NextState | src/lib.rs:786-790 | the editor never asks for another mode |
| App.KeyPendingTarget | src/lib.rs:153-168 | a transition asked for after a key is one the active mode declares |
| App.KeyDownIn | src/lib.rs:153-168 | the active mode handles the key and is polled. The pending transition is the one the mode's own rule gives. Only `Quit`, on Escape, and the editor, as `Quits` says, end the program. The editor's state follows `KeyEffect`, and the game's state is left as it was, since its pending Escape transition is taken back out (src/lib.rs:488-501) |
| App.Manager.constructor | src/lib.rs:55-90 | a new manager holds the mode map, starts in the initial mode and is valid |
| App.Manager.Take | src/lib.rs:98-100 | a pending transition makes its target the active mode |
| App.Manager.Update | src/lib.rs:93-103 | the active mode updates. Its pending transition, victory being the only one, is taken. The program ends exactly when the active mode is `Quit` (src/lib.rs:205-214). When the active mode is the game, its new frame is that of `Play.Tick`, minus the transition just taken. The editor's state is left as it was, since its `update` does nothing (src/lib.rs:581-583) |
| App.Manager.Key | src/lib.rs:153-168 | the mode switches to the transition the active mode asks for after the key. The editor's state follows `KeyEffect`, and the game's state is left as it was once its transition is taken |
| App.Manager.Text | src/lib.rs:142-151 | only the game reacts, as `Typed` says, keeping its level and position. The editor's state is left as it was, and the mode does not change |
| App.Manager.MouseMotion | src/lib.rs:170-179 | only the editor reacts, moving its cursor. The game's state is left as it was, and the mode does not change |
| App.Manager.MouseButton | src/lib.rs:181-190 | only the editor reacts, as `Clicked` says. The game's state is left as it was, and the mode does not change |
| App.Manager.QuitEvent | src/lib.rs:192-202 | the request is never cancelled: the menu answers false (src/lib.rs:306-310), and the game and the editor keep the library's default. The game's and the editor's state is left as it was, and the screen stays the same |
| App.TypingMenuTargets | src/bin/game.rs:39-105 | the start and pause menus lead to the game and to `Quit`; the two banners lead nowhere |
| App.TypingModes | src/bin/game.rs:38-106 | the typing game's map has exactly its six modes, each of the right kind |
| App.TypingModesDisjoint | src/bin/game.rs:38-106 | distinct menu objects and one game give modes that own disjoint objects |
| App.TypingModesClosed | src/bin/game.rs:38-106 | every transition any mode of the typing game can ask for leads to a mode in the map |
| App.TypingModesReady | src/bin/game.rs:38-106 | fresh menus and a fresh game are ready for events |
| App.TypingApp | src/bin/game.rs:38-108 | the typing game starts valid, on the start screen |
| App.MainMenuKeys | src/bin/game.rs:39-50 | S on the start screen starts the game |
| App.PauseMenuResumes | src/bin/game.rs:62-83 | Escape on the pause screen resumes the game |
| App.PauseMenuQuits | src/bin/game.rs:62-83 | Q on the pause screen quits |
| App.Press | src/lib.rs:153-168 | a key the active mode answers with a transition makes that transition's target active |
| App.StartThenPause | src/bin/game.rs:39-108 | from the start screen, S then Escape visits the game and then the pause menu |
| App.ResumeThenPause | src/bin/game.rs:39-108 | from the pause menu, Escape then Escape visits the game and then the pause menu again |
| App.QuitFromPause | src/bin/game.rs:39-108 | from the pause menu, Q leads to `Quit`, whose next update ends the program |
| App.QuitUpdate | src/lib.rs:205-214 | an update with `Quit` active ends the program |
| App.PauseAndQuit | src/bin/game.rs:39-108 | the key sequence S, Escape, Escape, Escape, Q visits the start screen, the game, the pause menu, the game, the pause menu and `Quit`, and the program ends |

## Left out

- Rendering (`draw` of every mode, the manager's stars, planets and background colour, `mshift`, fonts and layout in `UI::new`) is not modelled. Drawing reads state and does not change it.
- The `players` and timing fields of `Game` are left out. The clock becomes the `elapsed` parameter of `Play.Game.Update`, and `random_enemy_position` becomes `spawnX`.
- File and XML I/O is left out. `Paint::new` receives the file's text as `data`. `KTouchParser::new` is modelled from the lesson texts onward (`Wording.Lessons`); the roxmltree traversal that finds those texts is not.
- Editor.Paint.KeyDown: on Escape with no corner buffered, the editor quits and its state stays as it is. The save path is not modelled: the rescale by 1/(width − 2·margin) when `write_absolute` is off, writing the file through `Display`, and the console messages.
- Floating point is modelled as exact reals. `f32` rounding is not modelled, so the zoom and pan round trips hold over the reals only.
- Text.FormatReal: writes at most nine truncated fractional digits, not Rust's shortest round-trip `f32` formatting. Drawing.ParseSerialise therefore states the round trip for integral coordinates only.
- Text.ParseDecimal: reads plain decimals with an optional sign; the exponent, `inf` and `NaN` forms that Rust's `f32` parser also accepts are rejected.
- Drawing.Colliding: requires every vertex list to hold whole triangles. The source would panic on a ragged list. The editor never hands it one, because `Editor.Paint.constructor` demands whole triangles of the file and clicks add three points at a time.
- Editor.Paint.constructor: requires the file to parse, every configured color to parse, at least one color overall, and every vertex list of the file to hold whole triangles. The source panics on the first two. Without a color, N divides by zero and a third click indexes out of bounds. With a ragged list, `builder.triangles(&tri, ..)?` in `Paint::draw` (src/lib.rs:603) returns an error on the first frame.
- Malformed input that makes the source panic (a bad color string, a bad file line, an empty line, a point with one coordinate) gives `None` or `ok == false` instead.
- '\r' is kept as part of a line; Rust's `lines` would also strip it before '\n'.
- Events a mode does not handle call ggez's default handlers. The model keeps only the defaults that matter: Escape ends the program and a close request is granted. Key and mouse releases, resizes and the other callbacks are not modelled.
- `WordProducer::next_word` takes `&mut self` but neither producer changes its state, so both are functions; that the same question always gets the same answer holds by construction.
- The editor's executable (src/bin/paint.rs) is not part of this model beyond what `Paint::new` receives.
